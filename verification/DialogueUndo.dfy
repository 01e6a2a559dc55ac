/** «Назад» undoes an answer, and the same answer given again restores everything. */
module DialogueUndo {
  import opened Prelude
  import opened Dialogue

  // ---------------------------------------------------------------- the first unfilled step

  /** `s` is where the flow stands: unfilled, everything before it filled. */
  ghost predicate StandsAt(f: Flow, v: Values, s: Step) {
    Rank(f, s) >= 0 && !Filled(v, s) && forall e :: 0 <= Rank(f, e) < Rank(f, s) ==> Filled(v, e)
  }

  lemma {:induction false} FirstUnfilledIn(v: Values, order: seq<Step>)
    ensures FirstUnfilled(v, order).None? ==> forall i :: 0 <= i < |order| ==> Filled(v, order[i])
    ensures FirstUnfilled(v, order).Some? ==>
      exists i :: 0 <= i < |order| && order[i] == FirstUnfilled(v, order).value && !Filled(v, order[i])
                  && forall j :: 0 <= j < i ==> Filled(v, order[j])
  {
    if order != [] && Filled(v, order[0]) {
      FirstUnfilledIn(v, order[1..]);
      if FirstUnfilled(v, order).Some? {
        var i :| 0 <= i < |order[1..]| && order[1..][i] == FirstUnfilled(v, order).value && !Filled(v, order[1..][i])
                 && forall j :: 0 <= j < i ==> Filled(v, order[1..][j]);
        assert order[i + 1] == FirstUnfilled(v, order).value;
        forall j | 0 <= j < i + 1 ensures Filled(v, order[j]) { if j > 0 { assert order[1..][j - 1] == order[j]; } }
      }
    }
  }

  /** The step `advance` finds is where the flow stands, and there is only one such step. */
  lemma NextIsWhereItStands(f: Flow, v: Values, s: Step)
    ensures FirstUnfilled(v, Order(f)) == Some(s) <==> StandsAt(f, v, s)
  {
    FirstUnfilledIn(v, Order(f));
    RankIsPosition(f, s);
    var next := FirstUnfilled(v, Order(f));
    if next.Some? {
      RankIsPosition(f, next.value);
      forall e | 0 <= Rank(f, e) < Rank(f, next.value) ensures Filled(v, e) { RankIsPosition(f, e); }
      assert StandsAt(f, v, next.value);
    }
  }

  /** Two drafts that agree off the keys of `s` and the flight type. */
  ghost predicate AgreeOff(v: Values, w: Values, s: Step) {
    forall k :: k !in Keys(s) && k != FlightType ==> (k in v <==> k in w) && (k in v ==> v[k] == w[k])
  }

  /** Writing or clearing a step's own keys leaves every earlier step as it was. */
  lemma EarlierUntouched(f: Flow, v: Values, w: Values, s: Step, e: Step)
    requires 0 <= Rank(f, e) < Rank(f, s) && AgreeOff(v, w, s)
    ensures Filled(v, e) == Filled(w, e) && Skipped(v, e) == Skipped(w, e)
  {
    LaterKeysUnread(f, e, s);
    FlightTypeUnread(e);
    FilledReads(v, w, e);
  }

  lemma FlightTypeUnread(s: Step)
    ensures FlightType !in Reads(s)
  {
  }

  /** Whether a step applies does not depend on its own answer. */
  lemma OwnKeysDoNotSkip(v: Values, w: Values, s: Step)
    requires AgreeOff(v, w, s)
    ensures Skipped(v, s) == Skipped(w, s)
  {
    if s == AskFlight { assert AirportId !in Keys(s) && AsDriver !in Keys(s); }
    if s == AskSign { assert AirportId !in Keys(s) && From !in Keys(s); }
    if s == AskLuggage { assert AirportId !in Keys(s); }
  }

  // ---------------------------------------------------------------- the invariant

  /** The fixed keys (those the flow started with) hold whole steps: a step with a fixed key has its main key fixed. */
  ghost predicate Fixed(f: Flow, fixed: set<Key>) {
    forall s :: Rank(f, s) >= 0 && (Main(s).Some? ==> Main(s).value !in fixed) ==> Keys(s) !! fixed
  }

  ghost predicate Owned(asked: seq<Step>, k: Key) { exists i :: 0 <= i < |asked| && k in Keys(asked[i]) }

  /** Every key has a reason: fixed, the airport's flight type, or an answered step. */
  ghost predicate Explained(v: Values, fixed: set<Key>, asked: seq<Step>) {
    forall k :: k in v ==> k in fixed || k == FlightType || Owned(asked, k)
  }

  ghost predicate RisingAt(f: Flow, h: seq<Step>, i: nat)
    requires i < |h|
  {
    Rank(f, h[i]) >= 0 && (i > 0 ==> Rank(f, h[i - 1]) < Rank(f, h[i]))
  }

  /** The steps rise along the flow's order. */
  ghost predicate Rising(f: Flow, h: seq<Step>) { forall i :: 0 <= i < |h| ==> RisingAt(f, h, i) }

  /** An answered step: it applies, it is filled, and nothing fixed it. */
  ghost predicate Answered(v: Values, fixed: set<Key>, s: Step) {
    !Skipped(v, s) && Filled(v, s) && Keys(s) !! fixed
  }

  ghost predicate AllAnswered(v: Values, fixed: set<Key>, asked: seq<Step>) {
    forall i :: 0 <= i < |asked| ==> Answered(v, fixed, asked[i])
  }

  /** The steps asked so far explain the values. */
  ghost predicate Sound(f: Flow, v: Values, fixed: set<Key>, asked: seq<Step>) {
    && Fixed(f, fixed) && fixed <= v.Keys
    && Rising(f, asked) && AllAnswered(v, fixed, asked) && Explained(v, fixed, asked)
  }

  /** Every step asked so far comes before `s`. */
  ghost predicate Before(f: Flow, asked: seq<Step>, s: Step) {
    forall i :: 0 <= i < |asked| ==> Rank(f, asked[i]) < Rank(f, s)
  }

  function Last(h: seq<Step>): Step
    requires h != []
  {
    h[|h| - 1]
  }

  function Front(h: seq<Step>): seq<Step>
    requires h != []
  {
    h[..|h| - 1]
  }

  /** A draft that is asking: what every reachable question satisfies. */
  ghost predicate Good(d: Draft, fixed: set<Key>) {
    && d.flow.Some? && d.history != [] && d.step == Some(Last(d.history))
    && Sound(d.flow.value, d.vals, fixed, Front(d.history))
    && StandsAt(d.flow.value, d.vals, d.step.value)
    && Before(d.flow.value, Front(d.history), d.step.value)
  }

  lemma {:induction false} RisingRanks(f: Flow, h: seq<Step>, i: nat, j: nat)
    requires Rising(f, h) && i < j < |h|
    ensures 0 <= Rank(f, h[i]) < Rank(f, h[j])
    decreases j
  {
    assert RisingAt(f, h, j) && RisingAt(f, h, i);
    if i < j - 1 { RisingRanks(f, h, i, j - 1); }
  }

  lemma RisingExtends(f: Flow, asked: seq<Step>, s: Step)
    requires Rising(f, asked) && Before(f, asked, s) && Rank(f, s) >= 0
    ensures Rising(f, asked + [s])
  {
    forall i | 0 <= i < |asked + [s]| ensures RisingAt(f, asked + [s], i) { if i < |asked| { assert RisingAt(f, asked, i); } }
  }

  lemma RisingShrinks(f: Flow, h: seq<Step>)
    requires h != [] && Rising(f, h)
    ensures Rising(f, Front(h)) && Before(f, Front(h), Last(h)) && Rank(f, Last(h)) >= 0
  {
    assert RisingAt(f, h, |h| - 1);
    forall i | 0 <= i < |h| - 1 ensures RisingAt(f, Front(h), i) && Rank(f, h[i]) < Rank(f, Last(h)) {
      assert RisingAt(f, h, i);
      RisingRanks(f, h, i, |h| - 1);
    }
  }

  /** The history of a good draft rises as a whole. */
  lemma GoodRises(d: Draft, fixed: set<Key>)
    requires Good(d, fixed)
    ensures Rising(d.flow.value, d.history)
  {
    RisingExtends(d.flow.value, Front(d.history), d.step.value);
    assert Front(d.history) + [d.step.value] == d.history;
  }

  /** An unfilled step has none of its keys fixed. */
  lemma UnfilledNotFixed(f: Flow, v: Values, fixed: set<Key>, s: Step)
    requires Fixed(f, fixed) && fixed <= v.Keys && Rank(f, s) >= 0 && !Filled(v, s)
    ensures Keys(s) !! fixed && !Skipped(v, s)
  {
  }

  /** The step being asked has none of its keys yet. */
  lemma AskedStepIsBlank(d: Draft, fixed: set<Key>)
    requires Good(d, fixed)
    ensures Keys(d.step.value) !! d.vals.Keys
  {
    var f, s, asked := d.flow.value, d.step.value, Front(d.history);
    UnfilledNotFixed(f, d.vals, fixed, s);
    forall k | k in Keys(s) && k in d.vals ensures false {
      assert Owned(asked, k);
      var i :| 0 <= i < |asked| && k in Keys(asked[i]);
      assert RisingAt(f, asked, i);
      KeysOverlapAtMain(f, asked[i], s, k);
    }
  }

  // ---------------------------------------------------------------- growing and shrinking by one answer

  /** Filling the step where the flow stands adds one answered step. */
  lemma SoundGrows(f: Flow, v: Values, fixed: set<Key>, asked: seq<Step>, s: Step, w: Values)
    requires Sound(f, v, fixed, asked) && StandsAt(f, v, s) && Before(f, asked, s)
    requires AgreeOff(v, w, s) && v.Keys <= w.Keys && Filled(w, s)
    ensures Sound(f, w, fixed, asked + [s])
  {
    RisingExtends(f, asked, s);
    AnsweredGrows(f, v, fixed, asked, s, w);
    ExplainedGrows(v, fixed, asked, s, w);
  }

  lemma AnsweredGrows(f: Flow, v: Values, fixed: set<Key>, asked: seq<Step>, s: Step, w: Values)
    requires Sound(f, v, fixed, asked) && StandsAt(f, v, s) && Before(f, asked, s)
    requires AgreeOff(v, w, s) && Filled(w, s)
    ensures AllAnswered(w, fixed, asked + [s])
  {
    UnfilledNotFixed(f, v, fixed, s);
    OwnKeysDoNotSkip(v, w, s);
    forall i | 0 <= i < |asked| ensures Answered(w, fixed, asked[i]) {
      assert Answered(v, fixed, asked[i]) && RisingAt(f, asked, i);
      EarlierUntouched(f, v, w, s, asked[i]);
    }
  }

  lemma ExplainedGrows(v: Values, fixed: set<Key>, asked: seq<Step>, s: Step, w: Values)
    requires Explained(v, fixed, asked) && AgreeOff(v, w, s)
    ensures Explained(w, fixed, asked + [s])
  {
    forall k | k in w && k !in fixed && k != FlightType ensures Owned(asked + [s], k) {
      if k in Keys(s) {
        assert (asked + [s])[|asked|] == s;
      } else {
        assert Owned(asked, k);
        var i :| 0 <= i < |asked| && k in Keys(asked[i]);
        assert (asked + [s])[i] == asked[i];
      }
    }
  }

  /** Clearing the last answered step's keys unasks it. */
  lemma SoundShrinks(f: Flow, v: Values, fixed: set<Key>, asked: seq<Step>)
    requires asked != [] && Sound(f, v, fixed, asked)
    ensures Sound(f, v - Keys(Last(asked)), fixed, Front(asked))
    ensures Before(f, Front(asked), Last(asked))
  {
    RisingShrinks(f, asked);
    assert Answered(v, fixed, Last(asked));
    AnsweredShrinks(f, v, fixed, asked);
    ExplainedShrinks(v, fixed, asked);
  }

  lemma AnsweredShrinks(f: Flow, v: Values, fixed: set<Key>, asked: seq<Step>)
    requires asked != [] && Rising(f, asked) && AllAnswered(v, fixed, asked)
    ensures AllAnswered(v - Keys(Last(asked)), fixed, Front(asked))
  {
    var s := Last(asked);
    var w := v - Keys(s);
    assert AgreeOff(v, w, s);
    forall i | 0 <= i < |Front(asked)| ensures Answered(w, fixed, Front(asked)[i]) {
      assert Answered(v, fixed, asked[i]);
      RisingRanks(f, asked, i, |asked| - 1);
      EarlierUntouched(f, v, w, s, asked[i]);
    }
  }

  lemma ExplainedShrinks(v: Values, fixed: set<Key>, asked: seq<Step>)
    requires asked != [] && Explained(v, fixed, asked)
    ensures Explained(v - Keys(Last(asked)), fixed, Front(asked))
  {
    forall k | k in v - Keys(Last(asked)) && k !in fixed && k != FlightType ensures Owned(Front(asked), k) {
      assert Owned(asked, k);
      var i :| 0 <= i < |asked| && k in Keys(asked[i]);
      assert Front(asked)[i] == asked[i];
    }
  }

  /** The last answered step is where the flow stands once its keys are cleared. */
  lemma ClearedStands(f: Flow, v: Values, fixed: set<Key>, asked: seq<Step>, now: Step)
    requires asked != [] && Sound(f, v, fixed, asked) && StandsAt(f, v, now) && Before(f, asked, now)
    ensures StandsAt(f, v - Keys(Last(asked)), Last(asked))
  {
    var s := Last(asked);
    var w := v - Keys(s);
    assert Answered(v, fixed, s) && RisingAt(f, asked, |asked| - 1);
    assert AgreeOff(v, w, s);
    OwnKeysDoNotSkip(v, w, s);
    MainIsOwned(s);
    forall e | 0 <= Rank(f, e) < Rank(f, s) ensures Filled(w, e) { EarlierUntouched(f, v, w, s, e); }
  }

  lemma MainIsOwned(s: Step)
    ensures Main(s).Some? ==> Main(s).value in Keys(s)
  {
  }

  // ---------------------------------------------------------------- asking the next question

  /** From sound values, `advance` asks the step where the flow stands and the question is good. */
  lemma AskNext(d: Draft, fixed: set<Key>, cars: seq<Car>, s: Step)
    requires d.flow.Some? && Sound(d.flow.value, d.vals, fixed, d.history)
    requires StandsAt(d.flow.value, d.vals, s) && Before(d.flow.value, d.history, s)
    requires s == AskCar ==> |cars| >= 2
    ensures var d' := d.(step := Some(s), history := d.history + [s]); Advance(d, cars) == Asking(d') && Good(d', fixed)
  {
    NextIsWhereItStands(d.flow.value, d.vals, s);
    var d' := d.(step := Some(s), history := d.history + [s]);
    assert Front(d'.history) == d.history;
  }

  // ---------------------------------------------------------------- answers

  /** An accepted input that does not just toggle the flight type. */
  predicate Settles(input: Input) { !input.FlightKindIs? }

  /** What an accepted input writes: the asked step's keys, its main key among them. */
  lemma AcceptedKeys(d: Draft, input: Input, cars: seq<Car>, now: int)
    requires Settles(input) && Accepts(d, input, cars, now).Some?
    ensures d.flow.Some? && d.step.Some?
    ensures var p := Accepts(d, input, cars, now).value; var s := d.step.value;
            && Main(s).Some? && Main(s).value in p
            && p.Keys <= Keys(s) + {FlightType} && (FlightType in p <==> s == AskAirport)
  {
  }

  /** The answered values stay sound, with the asked step answered too. */
  lemma AnswerSound(d: Draft, fixed: set<Key>, input: Input, cars: seq<Car>, now: int)
    requires Good(d, fixed) && Settles(input) && Accepts(d, input, cars, now).Some?
    ensures Sound(d.flow.value, d.vals + Accepts(d, input, cars, now).value, fixed, d.history)
    ensures Filled(d.vals + Accepts(d, input, cars, now).value, d.step.value)
    ensures AgreeOff(d.vals, d.vals + Accepts(d, input, cars, now).value, d.step.value)
  {
    var p := Accepts(d, input, cars, now).value;
    AcceptedKeys(d, input, cars, now);
    SoundGrows(d.flow.value, d.vals, fixed, Front(d.history), d.step.value, d.vals + p);
    assert Front(d.history) + [d.step.value] == d.history;
  }

  /** Where the flow stands after an answer is strictly further on than every step asked. */
  lemma AnswerMovesOn(d: Draft, fixed: set<Key>, input: Input, cars: seq<Car>, now: int, next: Step)
    requires Good(d, fixed) && Settles(input) && Accepts(d, input, cars, now).Some?
    requires StandsAt(d.flow.value, d.vals + Accepts(d, input, cars, now).value, next)
    ensures Rank(d.flow.value, d.step.value) < Rank(d.flow.value, next)
    ensures Before(d.flow.value, d.history, next) && next != AskCar
  {
    AnswerSound(d, fixed, input, cars, now);
    StandMovesOn(d.flow.value, d.vals, d.vals + Accepts(d, input, cars, now).value, d.step.value, next);
    CarOpens(d.flow.value, d.step.value, next);
    forall i | 0 <= i < |d.history| ensures Rank(d.flow.value, d.history[i]) < Rank(d.flow.value, next) {
      if i < |d.history| - 1 { assert Rank(d.flow.value, Front(d.history)[i]) < Rank(d.flow.value, d.step.value); }
    }
  }

  /** Filling the step where the flow stands moves the stand strictly on. */
  lemma StandMovesOn(f: Flow, v: Values, w: Values, s: Step, next: Step)
    requires StandsAt(f, v, s) && AgreeOff(v, w, s) && Filled(w, s) && StandsAt(f, w, next)
    ensures Rank(f, s) < Rank(f, next)
  {
    if Rank(f, next) < Rank(f, s) {
      EarlierUntouched(f, v, w, s, next);
    } else if Rank(f, next) == Rank(f, s) {
      RanksDiffer(f, s, next);
    }
  }

  lemma RanksDiffer(f: Flow, s: Step, t: Step)
    requires Rank(f, s) == Rank(f, t) >= 0
    ensures s == t
  {
    RankIsPosition(f, s);
    RankIsPosition(f, t);
  }

  /** The car step opens its flow: it never follows another step. */
  lemma CarOpens(f: Flow, s: Step, t: Step)
    requires 0 <= Rank(f, s) < Rank(f, t)
    ensures t != AskCar
  {
  }

  /**
   MAIN (progress). An accepted answer other than the flight-type toggle either
   finishes the flow or asks a step strictly further on, appended to the history.
   */
  lemma AnswerProgress(d: Draft, fixed: set<Key>, input: Input, cars: seq<Car>, now: int)
    requires Good(d, fixed) && Settles(input) && Accepts(d, input, cars, now).Some?
    ensures var p := Accepts(d, input, cars, now).value; var r := Answer(d, p, cars);
            || r == Finishing(d.(vals := d.vals + p))
            || (r.Asking? && r.draft.step.Some?
                && r.draft == d.(vals := d.vals + p, step := r.draft.step, history := d.history + [r.draft.step.value])
                && Rank(d.flow.value, d.step.value) < Rank(d.flow.value, r.draft.step.value) && Good(r.draft, fixed))
  {
    var d' := d.(vals := d.vals + Accepts(d, input, cars, now).value);
    var next := FirstUnfilled(d'.vals, Order(d.flow.value));
    AnswerSound(d, fixed, input, cars, now);
    if next.Some? {
      NextIsWhereItStands(d.flow.value, d'.vals, next.value);
      AnswerMovesOn(d, fixed, input, cars, now, next.value);
      AskNext(d', fixed, cars, next.value);
    }
  }

  /** The toggle only rewrites the flight type, and every step sees the same draft. */
  lemma ToggleUnseen(v: Values, kind: Value, s: Step)
    ensures Filled(v[FlightType := kind], s) == Filled(v, s) && Skipped(v[FlightType := kind], s) == Skipped(v, s)
  {
    FlightTypeUnread(s);
    FilledReads(v, v[FlightType := kind], s);
  }

  lemma ToggleSound(f: Flow, v: Values, kind: Value, fixed: set<Key>, asked: seq<Step>)
    requires Sound(f, v, fixed, asked)
    ensures Sound(f, v[FlightType := kind], fixed, asked)
  {
    forall i | 0 <= i < |asked| ensures Answered(v[FlightType := kind], fixed, asked[i]) {
      assert Answered(v, fixed, asked[i]);
      ToggleUnseen(v, kind, asked[i]);
    }
  }

  /** The toggle asks the same question again and rewrites nothing but the flight type. */
  lemma ToggleStays(d: Draft, fixed: set<Key>, international: bool, cars: seq<Car>, now: int)
    requires Good(d, fixed) && Accepts(d, FlightKindIs(international), cars, now).Some?
    ensures var d' := d.(vals := d.vals[FlightType := KindOf(international)]);
            Answer(d, Accepts(d, FlightKindIs(international), cars, now).value, cars) == Asking(d') && Good(d', fixed)
  {
    var f, s, kind := d.flow.value, d.step.value, KindOf(international);
    var w := d.vals[FlightType := kind];
    assert d.vals + Accepts(d, FlightKindIs(international), cars, now).value == w;
    ToggleSound(f, d.vals, kind, fixed, Front(d.history));
    forall e | 0 <= Rank(f, e) <= Rank(f, s) ensures Filled(w, e) == Filled(d.vals, e) { ToggleUnseen(d.vals, kind, e); }
    NextIsWhereItStands(f, w, s);
  }

  // ---------------------------------------------------------------- «Назад»

  /** The step before the one being asked. */
  function Previous(d: Draft): Step
    requires |d.history| >= 2
  {
    d.history[|d.history| - 2]
  }

  /** The draft «Назад» should lead to: the previous step asked again, its answer forgotten. */
  function Rewound(d: Draft): Draft
    requires |d.history| >= 2
  {
    d.(step := Some(Previous(d)), history := Front(d.history), vals := d.vals - Keys(Previous(d)))
  }

  /** What «Назад» hands to `advance`. */
  function Cleared(d: Draft): Draft
    requires |d.history| >= 2
  {
    d.(history := d.history[..|d.history| - 2], vals := d.vals - Keys(Previous(d)))
  }

  lemma ClearedSound(d: Draft, fixed: set<Key>)
    requires Good(d, fixed) && |d.history| >= 2
    ensures Sound(d.flow.value, Cleared(d).vals, fixed, Cleared(d).history)
    ensures StandsAt(d.flow.value, Cleared(d).vals, Previous(d))
    ensures Before(d.flow.value, Cleared(d).history, Previous(d))
  {
    var asked := Front(d.history);
    assert Last(asked) == Previous(d) && Front(asked) == Cleared(d).history;
    SoundShrinks(d.flow.value, d.vals, fixed, asked);
    ClearedStands(d.flow.value, d.vals, fixed, asked, d.step.value);
  }

  /** «Назад» cannot ask a car step again when there is no choice of cars left. */
  predicate NoChoice(d: Draft, cars: seq<Car>)
    requires |d.history| >= 2
  {
    Previous(d) == AskCar && |cars| <= 1
  }

  /**
   MAIN. «Назад» asks exactly the previously asked step again, with that step's
   answer and the last history entry gone and nothing else changed - unless the
   step is the car step and the driver no longer has a choice of cars.
   */
  lemma BackAsksThePrevious(d: Draft, fixed: set<Key>, idem: string, driver: bool, cars: seq<Car>)
    requires Good(d, fixed) && |d.history| >= 2
    ensures Back(d, idem, driver, cars) == Asking(Rewound(d)) <==> !NoChoice(d, cars)
    ensures !NoChoice(d, cars) ==> Good(Rewound(d), fixed)
  {
    if NoChoice(d, cars) {
      BackWithoutChoice(d, fixed, idem, driver, cars);
      SingleCarShows(d, cars);
    } else {
      BackWithChoice(d, fixed, idem, driver, cars);
    }
  }

  lemma BackWithChoice(d: Draft, fixed: set<Key>, idem: string, driver: bool, cars: seq<Car>)
    requires Good(d, fixed) && |d.history| >= 2 && !NoChoice(d, cars)
    ensures Back(d, idem, driver, cars) == Asking(Rewound(d)) && Good(Rewound(d), fixed)
  {
    ClearedSound(d, fixed);
    AskNext(Cleared(d), fixed, cars, Previous(d));
    assert Cleared(d).history + [Previous(d)] == Front(d.history);
  }

  /** With no choice left, going back to the car step answers it again, or ends the flow. */
  lemma BackWithoutChoice(d: Draft, fixed: set<Key>, idem: string, driver: bool, cars: seq<Car>)
    requires Good(d, fixed) && |d.history| >= 2 && NoChoice(d, cars)
    ensures Back(d, idem, driver, cars) == if |cars| == 1 then AdvancePast(Cleared(d), cars[0]) else Ended
  {
    ClearedSound(d, fixed);
    NextIsWhereItStands(d.flow.value, Cleared(d).vals, AskCar);
  }

  /** The automatic answer leaves a car in the draft, which the rewound draft has not. */
  lemma SingleCarShows(d: Draft, cars: seq<Car>)
    requires d.flow.Some? && |d.history| >= 2 && NoChoice(d, cars)
    ensures |cars| == 1 ==> AdvancePast(Cleared(d), cars[0]) != Asking(Rewound(d))
  {
    if |cars| == 1 { assert CarId in AdvancePast(Cleared(d), cars[0]).draft.vals && CarId !in Rewound(d).vals; }
  }

  /**
   MAIN. Going back undoes an answer: the draft, step and history are exactly what
   they were before it - except that after the airport pick the flight type it
   wrote stays.
   */
  lemma BackUndoesAnswer(d: Draft, fixed: set<Key>, input: Input, cars: seq<Car>, now: int, idem: string, driver: bool)
    requires Good(d, fixed) && Settles(input) && Accepts(d, input, cars, now).Some?
    requires Answer(d, Accepts(d, input, cars, now).value, cars).Asking? && (d.step.value == AskCar ==> |cars| >= 2)
    ensures var p := Accepts(d, input, cars, now).value; var r := Back(Answer(d, p, cars).draft, idem, driver, cars);
            && (d.step.value == AskAirport ==> FlightType in p)
            && r == Asking(if d.step.value == AskAirport then d.(vals := d.vals[FlightType := p[FlightType]]) else d)
  {
    var p := Accepts(d, input, cars, now).value;
    var d2 := Answer(d, p, cars).draft;
    AnswerProgress(d, fixed, input, cars, now);
    assert Front(d2.history) == d.history && Previous(d2) == d.step.value;
    BackAsksThePrevious(d2, fixed, idem, driver, cars);
    ClearingForgetsTheAnswer(d, fixed, input, cars, now);
  }

  /**
   MAIN. The same input given again after going back: it is accepted at every moment
   at which it would have been before, at the first moment in particular, it writes
   the same values, and the draft, step and history are those of the first time.
   */
  lemma SameInputRestores(d: Draft, fixed: set<Key>, input: Input, cars: seq<Car>, now: int, later: int, idem: string, driver: bool)
    requires Good(d, fixed) && Settles(input) && Accepts(d, input, cars, now).Some?
    requires Answer(d, Accepts(d, input, cars, now).value, cars).Asking? && (d.step.value == AskCar ==> |cars| >= 2)
    ensures var p := Accepts(d, input, cars, now).value; var first := Answer(d, p, cars);
            var back := Back(first.draft, idem, driver, cars);
            && back.Asking? && Accepts(back.draft, input, cars, now) == Some(p)
            && Accepts(back.draft, input, cars, later) == Accepts(d, input, cars, later)
            && (Accepts(back.draft, input, cars, later).Some? ==> Accepts(back.draft, input, cars, later) == Some(p))
            && Answer(back.draft, p, cars) == first
  {
    BackUndoesAnswer(d, fixed, input, cars, now, idem, driver);
    var p := Accepts(d, input, cars, now).value;
    if d.step.value == AskAirport { RewritingIsOnce(d.vals, p, FlightType); }
  }

  lemma RewritingIsOnce(v: Values, p: Values, k: Key)
    requires k in p
    ensures v[k := p[k]] + p == v + p
  {
  }

  /** Writing an answer and clearing its step's keys gives the values back, up to the airport's flight type. */
  lemma ClearingForgetsTheAnswer(d: Draft, fixed: set<Key>, input: Input, cars: seq<Car>, now: int)
    requires Good(d, fixed) && Settles(input) && Accepts(d, input, cars, now).Some?
    ensures var p := Accepts(d, input, cars, now).value; var s := d.step.value;
            && (s == AskAirport ==> FlightType in p)
            && (d.vals + p) - Keys(s) == if s == AskAirport then d.vals[FlightType := p[FlightType]] else d.vals
  {
    AskedStepIsBlank(d, fixed);
    AcceptedKeys(d, input, cars, now);
    ClearingWritten(d.vals, Accepts(d, input, cars, now).value, d.step.value);
  }

  lemma ClearingWritten(v: Values, p: Values, s: Step)
    requires Keys(s) !! v.Keys && p.Keys <= Keys(s) + {FlightType}
    ensures (v + p) - Keys(s) == if FlightType in p then v[FlightType := p[FlightType]] else v
  {
    assert FlightType !in Keys(s);
  }

  /** The stored answer of a step. */
  function StoredAnswer(d: Draft, s: Step): Values { map k | k in d.vals && k in Keys(s) :: d.vals[k] }

  /**
   MAIN. Giving the same answer again after going back restores the draft, the
   step and the whole history exactly.
   */
  lemma SameAnswerRestores(d: Draft, fixed: set<Key>, idem: string, driver: bool, cars: seq<Car>)
    requires Good(d, fixed) && |d.history| >= 2 && !NoChoice(d, cars)
    ensures Back(d, idem, driver, cars) == Asking(Rewound(d))
    ensures Answer(Rewound(d), StoredAnswer(d, Previous(d)), cars) == Asking(d)
  {
    var prev, s := Previous(d), d.step.value;
    BackAsksThePrevious(d, fixed, idem, driver, cars);
    StoredRestores(d, prev);
    NextIsWhereItStands(d.flow.value, d.vals, s);
    SecondIsNotCar(d, fixed);
    assert Front(d.history) + [s] == d.history;
    assert Last(Front(d.history)) == prev;
  }

  lemma StoredRestores(d: Draft, s: Step)
    ensures (d.vals - Keys(s)) + StoredAnswer(d, s) == d.vals
  {
  }

  /** The car step never follows another step, and no step is asked twice in a row. */
  lemma SecondIsNotCar(d: Draft, fixed: set<Key>)
    requires Good(d, fixed) && |d.history| >= 2
    ensures d.step != Some(AskCar) && Previous(d) != d.step.value
  {
    GoodRises(d, fixed);
    RisingRanks(d.flow.value, d.history, |d.history| - 2, |d.history| - 1);
    CarOpens(d.flow.value, Previous(d), d.step.value);
  }
}

/**
 What a draft holds at every moment of every chat: the airport ride runs the way the
 user chose, whatever the flow opened with is still there, a question is asked only
 where it applies, and nothing the final action needs is missing.
 */
module DialogueDrafts {
  import opened Prelude
  import opened Dialogue
  import opened DialogueUndo
  import opened DialogueRuns
  import opened DialogueSaid

  // ---------------------------------------------------------------- the airport ride

  const BOOKKEEPING: set<Key> := {Idem, AsDriver, Search}

  /** Nothing is in the airport flow's draft but what its own steps put there. */
  ghost predicate Plain(d: Draft) {
    d.history != [] && Explained(d.vals, BOOKKEEPING, Front(d.history))
  }

  /** The ride goes from the airport to the other end, or from there to the airport, as the direction says; they differ. */
  ghost predicate EndsRight(v: Values) {
    AirportEnd in v ==>
      && AirportId in v && AirportDir in v && v[AirportEnd] != v[AirportId] && v[AirportEnd].Num? && v[AirportEnd].n > 0
      && (if v[AirportDir] == Text("from") then Is(v, From, v[AirportId]) && Is(v, To, v[AirportEnd])
          else Is(v, From, v[AirportEnd]) && Is(v, To, v[AirportId]))
  }

  /** From the airport, the pickup is the arrival. */
  ghost predicate PickupAtArrival(v: Values) {
    Is(v, AirportDir, Text("from")) && FlightAt in v ==> Is(v, PickupAt, v[FlightAt])
  }

  /** To the airport, the pickup is before the flight; from it, the pickup is not asked at all. */
  ghost predicate PickupAskedOnlyTo(d: Draft) {
    AskPickup in d.history ==> !Is(d.vals, AirportDir, Text("from"))
  }

  ghost predicate AirportRide(d: Draft) {
    d.flow == Some(Airport) ==> Plain(d) && EndsRight(d.vals) && PickupAtArrival(d.vals) && PickupAskedOnlyTo(d)
  }

  /** Of the airport steps only `s` owns the key. */
  ghost predicate OwnKey(k: Key, s: Step) {
    && k !in BOOKKEEPING && k != FlightType
    && forall t :: k in Keys(t) && Rank(Airport, t) >= 0 ==> t == s
  }

  lemma EndAndFlightAreOwn()
    ensures OwnKey(AirportEnd, AskAirportEnd) && OwnKey(FlightAt, AskFlightTime)
  {
  }

  /** A key of one airport step, if there, was put there by that step. */
  lemma PutByItsStep(d: Draft, k: Key, s: Step)
    requires Plain(d) && k in d.vals && OwnKey(k, s)
    requires forall i :: 0 <= i < |Front(d.history)| ==> Rank(Airport, Front(d.history)[i]) >= 0
    ensures s in Front(d.history)
  {
    assert Owned(Front(d.history), k);
  }

  lemma AskedRanks(d: Draft, fixed: set<Key>)
    requires Good(d, fixed)
    ensures forall i :: 0 <= i < |Front(d.history)| ==> 0 <= Rank(d.flow.value, Front(d.history)[i]) < Rank(d.flow.value, d.step.value)
  {
    forall i | 0 <= i < |Front(d.history)| ensures 0 <= Rank(d.flow.value, Front(d.history)[i]) < Rank(d.flow.value, d.step.value) {
      assert RisingAt(d.flow.value, Front(d.history), i);
    }
  }

  /** A later step's key is not there while an earlier airport step is asked. */
  lemma LaterKeyAbsent(d: Draft, fixed: set<Key>, k: Key, s: Step)
    requires Good(d, fixed) && d.flow == Some(Airport) && Plain(d) && OwnKey(k, s)
    requires Rank(Airport, d.step.value) <= Rank(Airport, s)
    ensures k !in d.vals
  {
    AskedRanks(d, fixed);
    if k in d.vals { PutByItsStep(d, k, s); }
  }

  /** What an accepted answer `p` to the airport flow's question did, before the next is asked in `r`. */
  ghost predicate Answers(d: Draft, p: Values, r: Draft) {
    && d.flow == Some(Airport) == r.flow && d.step.Some? && r.step.Some?
    && p.Keys <= Keys(d.step.value) + {FlightType} && Main(d.step.value).Some? && Main(d.step.value).value in p
    && r.vals == d.vals + p && r.history == d.history + [r.step.value]
  }

  lemma AnswerPlain(d: Draft, fixed: set<Key>, p: Values, r: Draft)
    requires Good(d, fixed) && Answers(d, p, r) && Plain(d)
    ensures Plain(r)
  {
    ExplainedGrows(d.vals, BOOKKEEPING, Front(d.history), d.step.value, r.vals);
    assert Front(d.history) + [d.step.value] == d.history == Front(r.history);
  }

  /** The answer that chooses the other end sets both ends of the ride. */
  lemma EndAnswered(d: Draft, fixed: set<Key>, input: Input, cars: seq<Car>, now: int, w: Values)
    requires Good(d, fixed) && d.flow == Some(Airport) && d.step == Some(AskAirportEnd)
    requires Takes(Airport, AskAirportEnd, d.vals, input, cars, now) && Holds(AskAirportEnd, d.vals, input, cars, w)
    requires SameOn(d.vals, w, {AirportId, AirportDir})
    ensures EndsRight(w)
  {
    assert Rank(Airport, AskAirportDir) < Rank(Airport, AskAirportEnd);
    assert Filled(d.vals, AskAirportDir);
    assert AirportId in {AirportId, AirportDir} && AirportDir in {AirportId, AirportDir};
  }

  lemma AnswerEnds(d: Draft, fixed: set<Key>, p: Values, r: Draft)
    requires Good(d, fixed) && Answers(d, p, r) && Plain(d) && EndsRight(d.vals)
    requires d.step == Some(AskAirportEnd) ==> EndsRight(r.vals)
    ensures EndsRight(r.vals)
  {
    var s := d.step.value;
    if s == AskAirport || s == AskAirportDir {
      EndAndFlightAreOwn();
      LaterKeyAbsent(d, fixed, AirportEnd, AskAirportEnd);
    } else if s != AskAirportEnd {
      OthersLeaveTheEnds(s);
      EndsRightOn(d.vals, r.vals);
    }
  }

  lemma EndsRightOn(v: Values, w: Values)
    requires EndsRight(v) && SameOn(v, w, {AirportEnd, AirportId, AirportDir, From, To})
    ensures EndsRight(w)
  {
    assert forall k :: k in {AirportEnd, AirportId, AirportDir, From, To} ==> (k in v <==> k in w);
  }

  lemma OthersLeaveTheEnds(s: Step)
    requires Rank(Airport, s) >= 0 && s != AskAirport && s != AskAirportDir && s != AskAirportEnd
    ensures Keys(s) + {FlightType} !! {AirportEnd, AirportId, AirportDir, From, To}
  {
  }

  lemma AnswerArrival(d: Draft, fixed: set<Key>, p: Values, r: Draft)
    requires Good(d, fixed) && Answers(d, p, r) && Plain(d) && PickupAtArrival(d.vals)
    requires d.step == Some(AskFlightTime) ==> PickupAtArrival(r.vals)
    ensures PickupAtArrival(r.vals)
  {
    var s := d.step.value;
    if s == AskPickup {
      AskedStepIsBlank(d, fixed);
      assert PickupAt in Keys(s) && AirportDir !in Keys(s) && FlightAt !in Keys(s);
    } else if s == AskAirportDir {
      EndAndFlightAreOwn();
      LaterKeyAbsent(d, fixed, FlightAt, AskFlightTime);
    } else if s != AskFlightTime {
      OthersLeaveTheFlight(s);
    }
  }

  lemma OthersLeaveTheFlight(s: Step)
    requires Rank(Airport, s) >= 0 && s != AskAirportDir && s != AskFlightTime && s != AskPickup
    ensures Keys(s) + {FlightType} !! {AirportDir, FlightAt, PickupAt}
  {
  }

  /** The pickup is asked only when it is not there, so not from the airport. */
  lemma PickupAskedTo(r: Draft, fixed: set<Key>)
    requires Good(r, fixed) && r.flow == Some(Airport) && r.step == Some(AskPickup) && PickupAtArrival(r.vals)
    ensures !Is(r.vals, AirportDir, Text("from"))
  {
    AskedStepIsBlank(r, fixed);
    assert Rank(Airport, AskFlightTime) < Rank(Airport, AskPickup);
    assert Filled(r.vals, AskFlightTime) && PickupAt in Keys(AskPickup);
  }

  lemma AnswerPickupSide(d: Draft, fixed: set<Key>, p: Values, r: Draft)
    requires Good(d, fixed) && Answers(d, p, r) && Good(r, fixed) && PickupAtArrival(r.vals) && PickupAskedOnlyTo(d)
    ensures PickupAskedOnlyTo(r)
  {
    if r.step == Some(AskPickup) {
      PickupAskedTo(r, fixed);
    } else if AskPickup in d.history {
      PickupIsLate(d, fixed);
      OnlyOneStepTurns(d.step.value);
    }
  }

  lemma OnlyOneStepTurns(s: Step)
    requires s != AskAirportDir
    ensures AirportDir !in Keys(s) + {FlightType}
  {
  }

  lemma InFront(h: seq<Step>, s: Step)
    requires h != [] && s in h && s != Last(h)
    ensures s in Front(h)
  {
    assert h == Front(h) + [Last(h)];
  }

  lemma AfterPickup(s: Step)
    requires Rank(Airport, AskPickup) < Rank(Airport, s)
    ensures s != AskAirportDir
  {
  }

  /** Once the pickup was asked, the direction is not. */
  lemma PickupIsLate(d: Draft, fixed: set<Key>)
    requires Good(d, fixed) && d.flow == Some(Airport) && AskPickup in d.history
    ensures d.step != Some(AskAirportDir)
  {
    if d.step != Some(AskPickup) {
      InFront(d.history, AskPickup);
      AskedIsEarlier(d, fixed, AskPickup);
      AfterPickup(d.step.value);
    }
  }

  lemma SaysAirportRide(d: Draft, fixed: set<Key>, input: Input, cars: seq<Car>, now: int, r: Draft)
    requires Good(d, fixed) && AirportRide(d) && Do(d, Says(input, cars, now)) == Asking(r)
    ensures AirportRide(r)
  {
    var p := Accepts(d, input, cars, now);
    if p.Some? {
      AnswerKeepsFlow(d, p.value, cars);
      if d.flow == Some(Airport) {
        if Settles(input) {
          AnswerProgress(d, fixed, input, cars, now);
          AnswerFacts(d, fixed, input, cars, now, r);
          AnswerAirportRide(d, fixed, p.value, r);
        } else {
          ToggleStays(d, fixed, input.international, cars, now);
          ToggleAirportRide(d, KindOf(input.international));
        }
      }
    }
  }

  lemma ToggleAirportRide(d: Draft, kind: Value)
    requires AirportRide(d) && d.flow == Some(Airport)
    ensures AirportRide(d.(vals := d.vals[FlightType := kind]))
  {
    EndsRightOn(d.vals, d.vals[FlightType := kind]);
  }

  lemma AnswerFacts(d: Draft, fixed: set<Key>, input: Input, cars: seq<Car>, now: int, r: Draft)
    requires Good(d, fixed) && d.flow == Some(Airport) && Settles(input) && Accepts(d, input, cars, now).Some?
    requires r.vals == d.vals + Accepts(d, input, cars, now).value
    ensures d.step == Some(AskAirportEnd) ==> EndsRight(r.vals)
    ensures d.step == Some(AskFlightTime) ==> PickupAtArrival(r.vals)
    ensures var p := Accepts(d, input, cars, now).value; var s := d.step.value;
            p.Keys <= Keys(s) + {FlightType} && Main(s).Some? && Main(s).value in p
  {
    AcceptedKeys(d, input, cars, now);
    AskedStepIsBlank(d, fixed);
    if d.step == Some(AskAirportEnd) {
      AcceptsExactly(d, input, cars, now);
      StoresWhatWasSaid(d, input, cars, now);
      assert {AirportId, AirportDir} !! Keys(AskAirportEnd) + {FlightType};
      EndAnswered(d, fixed, input, cars, now, r.vals);
    } else if d.step == Some(AskFlightTime) {
      StoresBesides(d, input, cars, now);
      assert AirportDir !in Keys(AskFlightTime) + {FlightType};
    }
  }

  lemma AnswerAirportRide(d: Draft, fixed: set<Key>, p: Values, r: Draft)
    requires Good(d, fixed) && AirportRide(d) && Answers(d, p, r) && Good(r, fixed)
    requires d.step == Some(AskAirportEnd) ==> EndsRight(r.vals)
    requires d.step == Some(AskFlightTime) ==> PickupAtArrival(r.vals)
    ensures AirportRide(r)
  {
    AnswerPlain(d, fixed, p, r);
    AnswerEnds(d, fixed, p, r);
    AnswerArrival(d, fixed, p, r);
    AnswerPickupSide(d, fixed, p, r);
  }

  lemma AnswerKeepsFlow(d: Draft, p: Values, cars: seq<Car>)
    ensures var r := Answer(d, p, cars); r.Asking? ==> r.draft.flow == d.flow
  {
  }

  lemma RewoundPlain(d: Draft, fixed: set<Key>)
    requires Good(d, fixed) && |d.history| >= 2 && Plain(d)
    ensures Plain(Rewound(d))
  {
    ExplainedShrinks(d.vals, BOOKKEEPING, Front(d.history));
    assert Front(Rewound(d).history) == Front(Front(d.history)) && Last(Front(d.history)) == Previous(d);
  }

  /** A key still there after rewinding belongs to a step before the one asked again. */
  lemma RewoundKey(d: Draft, fixed: set<Key>, k: Key, s: Step)
    requires |d.history| >= 2 && d.flow == Some(Airport) && Good(Rewound(d), fixed) && Plain(Rewound(d)) && OwnKey(k, s)
    ensures k in d.vals - Keys(Previous(d)) ==> 0 <= Rank(Airport, s) < Rank(Airport, Previous(d))
  {
    if k in Rewound(d).vals {
      AskedRanks(Rewound(d), fixed);
      PutByItsStep(Rewound(d), k, s);
      AskedIsEarlier(Rewound(d), fixed, s);
    }
  }

  lemma ClearedEnds(v: Values, prev: Step)
    requires EndsRight(v) && (AirportEnd in v - Keys(prev) ==> Rank(Airport, AskAirportEnd) < Rank(Airport, prev))
    ensures EndsRight(v - Keys(prev))
  {
    if AirportEnd in v - Keys(prev) {
      OthersLeaveTheEnds(prev);
      EndsRightOn(v, v - Keys(prev));
    }
  }

  lemma ClearedArrival(v: Values, prev: Step)
    requires PickupAtArrival(v) && (FlightAt in v - Keys(prev) ==> Rank(Airport, AskFlightTime) < Rank(Airport, prev))
    requires prev == AskPickup ==> !Is(v, AirportDir, Text("from"))
    ensures PickupAtArrival(v - Keys(prev))
  {
    if FlightAt in v - Keys(prev) && prev != AskPickup { OthersLeaveTheFlight(prev); }
  }

  lemma RewoundPickupSide(d: Draft)
    requires |d.history| >= 2 && PickupAskedOnlyTo(d)
    ensures PickupAskedOnlyTo(Rewound(d))
  {
    assert Rewound(d).history <= d.history;
  }

  /** The first question of the airport flow. */
  lemma FreshAirport(idem: string, driver: bool, search: Option<Value>, cars: seq<Car>) returns (v: Values)
    ensures Start(Airport, map[], idem, driver, search, cars) == Asking(Draft(Some(Airport), Some(AskAirport), [AskAirport], v))
    ensures v.Keys <= BOOKKEEPING && Is(v, Idem, Text(idem)) && Is(v, AsDriver, Flag(driver))
    ensures if search.Some? then Is(v, Search, search.value) else Search !in v
  {
    var role: Values := map[AsDriver := Flag(driver)];
    var kept: Values := if search.Some? then map[Search := search.value] else map[];
    var none: Values := map[];
    v := map[Idem := Text(idem)] + role + none + kept;
    FirstIsAsked(Draft(Some(Airport), None, [], v), cars);
  }

  lemma FirstIsAsked(d: Draft, cars: seq<Car>)
    requires d.flow.Some? && d.history == [] && !Filled(d.vals, Order(d.flow.value)[0]) && Order(d.flow.value)[0] != AskCar
    ensures var s := Order(d.flow.value)[0]; Advance(d, cars) == Asking(d.(step := Some(s), history := [s]))
  {
    assert FirstUnfilled(d.vals, Order(d.flow.value)) == Some(Order(d.flow.value)[0]);
  }

  lemma FreshAirportRide(idem: string, driver: bool, search: Option<Value>, cars: seq<Car>)
    ensures var r := Start(Airport, map[], idem, driver, search, cars); r.Asking? && AirportRide(r.draft)
  {
    var v := FreshAirport(idem, driver, search, cars);
    assert Front([AskAirport]) == [];
    assert Explained(v, BOOKKEEPING, []);
  }

  lemma BackAirportRide(d: Draft, fixed: set<Key>, idem: string, driver: bool, cars: seq<Car>, r: Draft)
    requires Good(d, fixed) && AirportRide(d) && Back(d, idem, driver, cars) == Asking(r)
    ensures AirportRide(r)
  {
    if |d.history| < 2 {
      FreshAirportRide(idem, driver, if Search in d.vals then Some(d.vals[Search]) else None, cars);
    } else if d.flow == Some(Airport) {
      NoCarToTheAirport(d, fixed);
      BackWithChoice(d, fixed, idem, driver, cars);
      RewoundPlain(d, fixed);
      EndAndFlightAreOwn();
      RewoundKey(d, fixed, AirportEnd, AskAirportEnd);
      RewoundKey(d, fixed, FlightAt, AskFlightTime);
      assert Previous(d) in d.history;
      ClearedEnds(d.vals, Previous(d));
      ClearedArrival(d.vals, Previous(d));
      RewoundPickupSide(d);
    } else {
      AdvanceKeepsFlow(Cleared(d), cars);
    }
  }

  lemma AdvanceKeepsFlow(d: Draft, cars: seq<Car>)
    ensures var r := Advance(d, cars); r.Asking? ==> r.draft.flow == d.flow
  {
  }

  lemma NoCarToTheAirport(d: Draft, fixed: set<Key>)
    requires Good(d, fixed) && d.flow == Some(Airport) && |d.history| >= 2
    ensures Previous(d) != AskCar
  {
    AskedRanks(d, fixed);
    assert Front(d.history)[|d.history| - 2] == Previous(d);
  }

  lemma OpenAirportRide(o: Opening, idem: string, driver: bool, search: Option<Value>, cars: seq<Car>)
    ensures var r := Open(o, idem, driver, search, cars); r.Asking? ==> AirportRide(r.draft)
  {
    if FlowOf(o) == Airport {
      FreshAirportRide(idem, driver, search, cars);
    } else {
      OpenKeepsFlow(o, idem, driver, search, cars);
    }
  }

  lemma OpenKeepsFlow(o: Opening, idem: string, driver: bool, search: Option<Value>, cars: seq<Car>)
    ensures var r := Open(o, idem, driver, search, cars); r.Asking? ==> r.draft.flow == Some(FlowOf(o))
  {
  }

  lemma ActAirportRide(d: Draft, fixed: set<Key>, act: Act, r: Draft)
    requires Good(d, fixed) && AirportRide(d) && Do(d, act) == Asking(r)
    ensures AirportRide(r)
  {
    match act
    case Says(input, cars, now) => SaysAirportRide(d, fixed, input, cars, now, r);
    case GoesBack(idem, driver, cars) => BackAirportRide(d, fixed, idem, driver, cars, r);
  }

  lemma {:induction false} ChatAirportRide(d: Draft, fixed: set<Key>, acts: seq<Act>)
    requires Good(d, fixed) && AirportRide(d)
    ensures Chat(d, acts).Asking? ==> AirportRide(Chat(d, acts).draft)
    decreases |acts|
  {
    if acts != [] && Do(d, acts[0]).Asking? {
      var d1 := Do(d, acts[0]).draft;
      DoGood(d, fixed, acts[0]);
      var fixed' :| Good(d1, fixed');
      ActAirportRide(d, fixed, acts[0], d1);
      ChatAirportRide(d1, fixed', acts[1..]);
    }
  }

  /**
   MAIN. In the airport flow, at every moment of every chat: once the other end is
   chosen, the ride runs from the airport to it or from it to the airport as the
   direction says, and it is not the airport itself; from the airport the pickup is
   the arrival and is never asked.
   */
  lemma RideRunsAsChosen(o: Opening, idem: string, driver: bool, search: Option<Value>, cars: seq<Car>, acts: seq<Act>)
    requires Open(o, idem, driver, search, cars).Asking?
    ensures var r := Chat(Open(o, idem, driver, search, cars).draft, acts);
            r.Asking? && r.draft.flow == Some(Airport) ==>
              EndsRight(r.draft.vals) && PickupAtArrival(r.draft.vals) && PickupAskedOnlyTo(r.draft)
  {
    OpenGood(o, idem, driver, search, cars);
    OpenAirportRide(o, idem, driver, search, cars);
    var d := Open(o, idem, driver, search, cars).draft;
    var fixed :| Good(d, fixed);
    ChatAirportRide(d, fixed, acts);
  }

  // ---------------------------------------------------------------- what the flow opened with

  /** The values the flow opened with are there, and no step asked so far owns one of them. */
  ghost predicate OpeningKept(d: Draft, f: Flow, v0: Values) {
    d.flow == Some(f) ==>
      && SameOn(v0, d.vals, v0.Keys)
      && forall i :: 0 <= i < |d.history| ==> Keys(d.history[i]) !! v0.Keys
  }

  lemma SaysOpeningKept(d: Draft, fixed: set<Key>, input: Input, cars: seq<Car>, now: int, r: Draft, f: Flow, v0: Values)
    requires Good(d, fixed) && OpeningKept(d, f, v0) && FlightType !in v0 && Do(d, Says(input, cars, now)) == Asking(r)
    ensures OpeningKept(r, f, v0)
  {
    var p := Accepts(d, input, cars, now);
    if p.Some? {
      if Settles(input) {
        AnswerShape(d, fixed, input, cars, now, r);
        AnswerOpeningKept(d, p.value, r, f, v0);
      } else {
        ToggleStays(d, fixed, input.international, cars, now);
        ToggleOpeningKept(d, KindOf(input.international), f, v0);
      }
    }
  }

  lemma ToggleOpeningKept(d: Draft, kind: Value, f: Flow, v0: Values)
    requires OpeningKept(d, f, v0) && FlightType !in v0
    ensures OpeningKept(d.(vals := d.vals[FlightType := kind]), f, v0)
  {
  }

  /** What an answer that asks on does to the draft. */
  lemma AnswerShape(d: Draft, fixed: set<Key>, input: Input, cars: seq<Car>, now: int, r: Draft)
    requires Good(d, fixed) && Settles(input) && Accepts(d, input, cars, now).Some?
    requires Answer(d, Accepts(d, input, cars, now).value, cars) == Asking(r)
    ensures var p := Accepts(d, input, cars, now).value;
            && d.step.Some? && r.step.Some? && p.Keys <= Keys(d.step.value) + {FlightType}
            && Keys(d.step.value) !! d.vals.Keys && Keys(r.step.value) !! r.vals.Keys
            && r.flow == d.flow && r.vals == d.vals + p && r.history == d.history + [r.step.value]
  {
    AnswerProgress(d, fixed, input, cars, now);
    AcceptedKeys(d, input, cars, now);
    AskedStepIsBlank(d, fixed);
    AskedStepIsBlank(r, fixed);
  }

  lemma AnswerOpeningKept(d: Draft, p: Values, r: Draft, f: Flow, v0: Values)
    requires OpeningKept(d, f, v0) && FlightType !in v0 && d.step.Some? && r.step.Some?
    requires p.Keys <= Keys(d.step.value) + {FlightType} && Keys(d.step.value) !! d.vals.Keys && Keys(r.step.value) !! r.vals.Keys
    requires r.flow == d.flow && r.vals == d.vals + p && r.history == d.history + [r.step.value]
    ensures OpeningKept(r, f, v0)
  {
    if d.flow == Some(f) {
      forall k | k in v0.Keys ensures k in r.vals && v0[k] == r.vals[k] { assert k in d.vals; }
      forall i | 0 <= i < |r.history| ensures Keys(r.history[i]) !! v0.Keys { assert i < |d.history| || r.history[i] == r.step.value; }
    }
  }

  lemma BackOpeningKept(d: Draft, fixed: set<Key>, idem: string, driver: bool, cars: seq<Car>, r: Draft, f: Flow, v0: Values)
    requires Good(d, fixed) && OpeningKept(d, f, v0) && Back(d, idem, driver, cars) == Asking(r) && d.flow == Some(f)
    ensures OpeningKept(r, f, v0)
  {
    if |d.history| < 2 {
      var v := FreshAirport(idem, driver, if Search in d.vals then Some(d.vals[Search]) else None, cars);
    } else if NoChoice(d, cars) {
      BackToCarKept(d, fixed, idem, driver, cars, r, f, v0);
    } else {
      BackWithChoice(d, fixed, idem, driver, cars);
      assert Keys(d.history[|d.history| - 2]) !! v0.Keys;
      assert r.history == d.history[..|d.history| - 1];
    }
  }

  lemma BackToCarKept(d: Draft, fixed: set<Key>, idem: string, driver: bool, cars: seq<Car>, r: Draft, f: Flow, v0: Values)
    requires Good(d, fixed) && OpeningKept(d, f, v0) && d.flow == Some(f) && |d.history| >= 2 && NoChoice(d, cars)
    requires Back(d, idem, driver, cars) == Asking(r)
    ensures OpeningKept(r, f, v0)
  {
    NothingBeforeCar(d, fixed);
    ClearedSound(d, fixed);
    BackWithoutChoice(d, fixed, idem, driver, cars);
    assert Keys(d.history[0]) !! v0.Keys && Keys(AskCar) == {CarId, MaxSeats};
    AutoCarGood(Cleared(d), fixed, cars[0]);
    AskedStepIsBlank(r, fixed + {CarId, MaxSeats});
    OnlyOne(d, cars[0], r);
    forall k | k in v0.Keys ensures k in r.vals && v0[k] == r.vals[k] { assert k in d.vals; }
  }

  lemma OnlyOne(d: Draft, car: Car, r: Draft)
    requires |d.history| == 2 && d.flow.Some? && AdvancePast(Cleared(d), car) == Asking(r)
    ensures r.step.Some? && r.history == [r.step.value] && r.vals == WithCar(Cleared(d).vals, car) && r.flow == d.flow
  {
  }

  lemma {:induction false} ChatOpeningKept(d: Draft, fixed: set<Key>, acts: seq<Act>, f: Flow, v0: Values)
    requires Good(d, fixed) && OpeningKept(d, f, v0) && FlightType !in v0 && (d.flow == Some(f) || (d.flow == Some(Airport) && f != Airport))
    ensures Chat(d, acts).Asking? ==>
              OpeningKept(Chat(d, acts).draft, f, v0) && Chat(d, acts).draft.flow in {Some(f), Some(Airport)}
    decreases |acts|
  {
    if acts != [] && Do(d, acts[0]).Asking? {
      var d1 := Do(d, acts[0]).draft;
      DoGood(d, fixed, acts[0]);
      var fixed' :| Good(d1, fixed');
      FlowStaysOrRestarts(d, acts[0], d1);
      match acts[0] {
        case Says(input, cars, now) => SaysOpeningKept(d, fixed, input, cars, now, d1, f, v0);
        case GoesBack(idem, driver, cars) => if d.flow == Some(f) { BackOpeningKept(d, fixed, idem, driver, cars, d1, f, v0); }
      }
      ChatOpeningKept(d1, fixed', acts[1..], f, v0);
    }
  }

  /** A chat leaves its flow only for the airport picker, and never that one. */
  lemma FlowStaysOrRestarts(d: Draft, act: Act, r: Draft)
    requires d.flow.Some? && Do(d, act) == Asking(r)
    ensures r.flow == d.flow || (r.flow == Some(Airport) && d.flow != Some(Airport))
  {
    match act
    case Says(input, cars, now) =>
      if Accepts(d, input, cars, now).Some? { AnswerKeepsFlow(d, Accepts(d, input, cars, now).value, cars); }
    case GoesBack(idem, driver, cars) =>
      if |d.history| < 2 {
        OpenKeepsFlow(FromMenu(Airport), idem, driver, if Search in d.vals then Some(d.vals[Search]) else None, cars);
      } else {
        AdvanceKeepsFlow(Cleared(d), cars);
      }
  }

  /** What the draft of each opening must hold, in the terms of what it was opened for. */
  ghost predicate OpeningHolds(o: Opening, v: Values) {
    match o
    case FromMenu(flow) => true
    case BookTrip(trip, seats, a, b, departure, price) =>
      && Is(v, TargetId, Text(trip)) && Is(v, MaxSeats, Num(seats)) && Is(v, From, Num(a)) && Is(v, To, Num(b))
      && Is(v, Price, Num(price)) && AtLocal(v, departure)
    case OfferRide(request, a, b, departure, flexible) =>
      && Is(v, TargetId, Text(request)) && Is(v, From, Num(a)) && Is(v, To, Num(b))
      && Is(v, Date, Num((departure + 21_600_000) / 86_400_000))
      && (!flexible ==> Is(v, HintTime, Num((departure + 21_600_000) % 86_400_000 / 60_000)))
    case PublishTransfer(ended, pickup) => AtLocal(v, pickup) && SameRide(ended, v, {From, To, AirportId, AirportDir})
    case RequestTransfer(ended, pickup) =>
      && AtLocal(v, pickup) && SameRide(ended, v, {From, To, AirportId, AirportDir})
      && Is(v, Flight, if Flight in ended then ended[Flight] else Null)
    case RequestRoute(ended) => SameRide(ended, v, {From, AirportId}) && Is(v, To, if To in ended then ended[To] else Null)
  }

  /** A flow that was started, not stored, has its own id, and keeps the last search. */
  ghost predicate StartHolds(o: Opening, idem: string, driver: bool, search: Option<Value>, v: Values) {
    !o.RequestTransfer? && !o.RequestRoute? ==>
      && Is(v, Idem, Text(idem)) && (search.Some? ==> Is(v, Search, search.value))
      && (FlowOf(o) == Airport ==> Is(v, AsDriver, Flag(driver)))
  }

  /** The local day and minute of an instant. */
  ghost predicate AtLocal(v: Values, at: int) {
    Is(v, Date, Num((at + 21_600_000) / 86_400_000)) && Is(v, Time, Num((at + 21_600_000) % 86_400_000 / 60_000))
  }

  ghost predicate SameRide(ended: Values, v: Values, keys: set<Key>) {
    forall k :: k in keys && k in ended ==> Is(v, k, ended[k])
  }

  /** The values a flow starts from. */
  function FirstValues(o: Opening, idem: string, driver: bool, search: Option<Value>): Values {
    if o.RequestTransfer? || o.RequestRoute? then Preset(o)
    else
      map[Idem := Text(idem)] + (if FlowOf(o) == Airport then map[AsDriver := Flag(driver)] else map[]) + Preset(o)
      + (if search.Some? then map[Search := search.value] else map[])
  }

  lemma PresetHolds(o: Opening)
    ensures OpeningHolds(o, Preset(o))
  {
    match o
    case PublishTransfer(ended, pickup) => RideHolds(ended, pickup);
    case RequestTransfer(ended, pickup) => RideHolds(ended, pickup);
    case _ =>
  }

  lemma RideHolds(ended: Values, pickup: int)
    ensures AtLocal(RidePreset(ended, pickup), pickup)
    ensures SameRide(ended, RidePreset(ended, pickup), {From, To, AirportId, AirportDir})
    ensures Flight !in RidePreset(ended, pickup)
  {
  }

  lemma PresetKeys(o: Opening)
    ensures {Idem, AsDriver, Search, FlightType} !! Preset(o).Keys
    ensures FlowOf(o) == Publish ==> CarId !in Preset(o) && MaxSeats !in Preset(o)
  {
  }

  lemma OpeningHoldsOn(o: Opening, v: Values, w: Values)
    requires OpeningHolds(o, v) && SameOn(v, w, v.Keys)
    ensures OpeningHolds(o, w)
  {
  }

  lemma StartHoldsOn(o: Opening, idem: string, driver: bool, search: Option<Value>, v: Values, w: Values)
    requires StartHolds(o, idem, driver, search, v) && SameOn(v, w, v.Keys)
    ensures StartHolds(o, idem, driver, search, w)
  {
  }

  lemma FirstValuesHold(o: Opening, idem: string, driver: bool, search: Option<Value>)
    ensures var v := FirstValues(o, idem, driver, search);
            StartHolds(o, idem, driver, search, v) && SameOn(Preset(o), v, Preset(o).Keys) && FlightType !in v
            && (FlowOf(o) == Publish ==> CarId !in v && MaxSeats !in v)
  {
    PresetKeys(o);
  }

  lemma OpenIsAdvance(o: Opening, idem: string, driver: bool, search: Option<Value>, cars: seq<Car>)
    ensures Open(o, idem, driver, search, cars) == Advance(Draft(Some(FlowOf(o)), None, [], FirstValues(o, idem, driver, search)), cars)
  {
  }

  /** The first question of any draft of whole values keeps them. */
  lemma FirstQuestionKeeps(f: Flow, v0: Values, cars: seq<Car>, r: Draft)
    requires Advance(Draft(Some(f), None, [], v0), cars) == Asking(r) && r.step.Some? && Keys(r.step.value) !! r.vals.Keys
    requires f == Publish ==> CarId !in v0 && MaxSeats !in v0
    ensures OpeningKept(r, f, v0)
  {
    var d := Draft(Some(f), None, [], v0);
    FirstUnfilledIn(v0, Order(f));
    if FirstUnfilled(v0, Order(f)) == Some(AskCar) {
      assert f == Publish by { OnlyPublishHasCar(f); }
    }
  }

  lemma OnlyPublishHasCar(f: Flow)
    ensures AskCar in Order(f) ==> f == Publish
  {
  }

  lemma OpenKeepsFirst(o: Opening, idem: string, driver: bool, search: Option<Value>, cars: seq<Car>, fixed: set<Key>)
    requires Open(o, idem, driver, search, cars).Asking? && Good(Open(o, idem, driver, search, cars).draft, fixed)
    ensures OpeningKept(Open(o, idem, driver, search, cars).draft, FlowOf(o), FirstValues(o, idem, driver, search))
  {
    var r := Open(o, idem, driver, search, cars).draft;
    AskedStepIsBlank(r, fixed);
    OpenIsAdvance(o, idem, driver, search, cars);
    FirstValuesHold(o, idem, driver, search);
    FirstQuestionKeeps(FlowOf(o), FirstValues(o, idem, driver, search), cars, r);
  }

  /**
   MAIN. Whatever a flow was opened with - the trip, its seats, route, day and price; the
   request; the airport ride just described; the flow's own id, the last search - is still
   in the draft at every moment of the chat, until the flow is left for the airport picker.
   */
  lemma OpeningStays(o: Opening, idem: string, driver: bool, search: Option<Value>, cars: seq<Car>, acts: seq<Act>)
    requires Open(o, idem, driver, search, cars).Asking?
    ensures var r := Chat(Open(o, idem, driver, search, cars).draft, acts);
            r.Asking? ==>
              && (r.draft.flow == Some(FlowOf(o)) || r.draft.flow == Some(Airport))
              && (r.draft.flow == Some(FlowOf(o)) ==>
                    OpeningHolds(o, r.draft.vals) && StartHolds(o, idem, driver, search, r.draft.vals))
  {
    OpenGood(o, idem, driver, search, cars);
    var d, v0 := Open(o, idem, driver, search, cars).draft, FirstValues(o, idem, driver, search);
    var fixed :| Good(d, fixed);
    OpenKeepsFirst(o, idem, driver, search, cars, fixed);
    OpenKeepsFlow(o, idem, driver, search, cars);
    FirstValuesHold(o, idem, driver, search);
    ChatOpeningKept(d, fixed, acts, FlowOf(o), v0);
    if Chat(d, acts).Asking? {
      var r := Chat(d, acts).draft;
      if r.flow == Some(FlowOf(o)) {
        PresetHolds(o);
        OpeningHoldsOn(o, Preset(o), v0);
        OpeningHoldsOn(o, v0, r.vals);
        StartHoldsOn(o, idem, driver, search, v0, r.vals);
      }
    }
  }

  // ---------------------------------------------------------------- what is asked, and what is there at the end

  /**
   MAIN. Only what applies is asked: a flight of a passenger of an airport ride, a sign of
   one met at the airport, luggage of an airport request - and nothing already answered.
   */
  lemma AskedWhereItApplies(o: Opening, idem: string, driver: bool, search: Option<Value>, cars: seq<Car>, acts: seq<Act>)
    requires Open(o, idem, driver, search, cars).Asking?
    ensures var r := Chat(Open(o, idem, driver, search, cars).draft, acts);
            r.Asking? ==>
              && r.draft.step.Some?
              && var s, v := r.draft.step.value, r.draft.vals;
                 && (s == AskFlight ==> AirportId in v && !Is(v, AsDriver, Flag(true)))
                 && (s == AskSign ==> AirportId in v && Is(v, From, v[AirportId]))
                 && (s == AskLuggage ==> AirportId in v)
                 && (Main(s).Some? ==> Main(s).value !in v)
  {
    OpenGood(o, idem, driver, search, cars);
    var d := Open(o, idem, driver, search, cars).draft;
    var fixed :| Good(d, fixed);
    ChatGood(d, fixed, acts);
    if Chat(d, acts).Asking? { UnfilledApplies(Chat(d, acts).draft.vals, Chat(d, acts).draft.step.value); }
  }

  lemma UnfilledApplies(v: Values, s: Step)
    requires !Filled(v, s)
    ensures s == AskFlight ==> AirportId in v && !Is(v, AsDriver, Flag(true))
    ensures s == AskSign ==> AirportId in v && Is(v, From, v[AirportId])
    ensures s == AskLuggage ==> AirportId in v
    ensures Main(s).Some? ==> Main(s).value !in v
  {
  }

  /** Everything the flow's final action reads of the draft. */
  ghost predicate Complete(f: Flow, v: Values) {
    match f
    case FindTrip => {From, To, Date} <= v.Keys
    case FindPassengers => {From, To, Date} <= v.Keys
    case NeedRide =>
      && {From, To, Date, Time, Seats, Comment} <= v.Keys
      && (AirportId in v ==>
            && Luggage in v && (Flight in v || Is(v, AsDriver, Flag(true)))
            && (v[From] == v[AirportId] ==> MeetSign in v))
    case Publish => {CarId, From, To, Date, Time, Seats, Price, Comment} <= v.Keys
    case Airport =>
      && {AirportId, AirportDir, AirportEnd, From, To, Date, FlightAt, PickupAt} <= v.Keys
      && (Flight in v || Is(v, AsDriver, Flag(true)))
    case Book => Seats in v
    case Offer => {Date, Time, Price, Comment} <= v.Keys
    case Link => true
  }

  ghost predicate FilledUpTo(f: Flow, v: Values, s: Step) { forall e :: 0 <= Rank(f, e) && e != s ==> Filled(v, e) }

  lemma There(f: Flow, v: Values, s: Step)
    requires FilledUpTo(f, v, Confirm) && 0 <= Rank(f, s) && s != Confirm && !Skipped(v, s)
    ensures Main(s).Some? ==> Main(s).value in v
  {
  }

  lemma RequestComplete(v: Values)
    requires FilledUpTo(NeedRide, v, Confirm)
    ensures Complete(NeedRide, v)
  {
    There(NeedRide, v, AskFrom);
    There(NeedRide, v, AskTo);
    There(NeedRide, v, AskDate);
    There(NeedRide, v, AskTime);
    There(NeedRide, v, AskSeats);
    There(NeedRide, v, AskComment);
    if AirportId in v {
      There(NeedRide, v, AskLuggage);
      if !Skipped(v, AskFlight) { There(NeedRide, v, AskFlight); }
      if !Skipped(v, AskSign) { There(NeedRide, v, AskSign); }
    }
  }

  lemma PublishComplete(v: Values)
    requires FilledUpTo(Publish, v, Confirm)
    ensures Complete(Publish, v)
  {
    There(Publish, v, AskCar);
    There(Publish, v, AskFrom);
    There(Publish, v, AskTo);
    There(Publish, v, AskDate);
    There(Publish, v, AskTime);
    There(Publish, v, AskSeats);
    There(Publish, v, AskPrice);
    There(Publish, v, AskComment);
  }

  lemma AirportComplete(v: Values)
    requires FilledUpTo(Airport, v, Confirm) && EndsRight(v)
    ensures Complete(Airport, v)
  {
    There(Airport, v, AskAirport);
    There(Airport, v, AskAirportDir);
    There(Airport, v, AskAirportEnd);
    There(Airport, v, AskDate);
    There(Airport, v, AskFlightTime);
    There(Airport, v, AskPickup);
    if !Skipped(v, AskFlight) { There(Airport, v, AskFlight); }
  }

  lemma OthersComplete(f: Flow, v: Values)
    requires FilledUpTo(f, v, Confirm) && f in {FindTrip, FindPassengers, Book, Offer, Link}
    ensures Complete(f, v)
  {
    match f
    case FindTrip => There(f, v, AskFrom); There(f, v, AskTo); There(f, v, AskDate);
    case FindPassengers => There(f, v, AskFrom); There(f, v, AskTo); There(f, v, AskDate);
    case Book => There(f, v, AskSeats);
    case Offer => There(f, v, AskDate); There(f, v, AskTime); There(f, v, AskPrice); There(f, v, AskComment);
    case Link =>
  }

  lemma FilledIsComplete(f: Flow, v: Values)
    requires FilledUpTo(f, v, Confirm) && (f == Airport ==> EndsRight(v))
    ensures Complete(f, v)
  {
    match f
    case NeedRide => RequestComplete(v);
    case Publish => PublishComplete(v);
    case Airport => AirportComplete(v);
    case _ => OthersComplete(f, v);
  }

  lemma ConfirmIsLast(f: Flow, e: Step)
    requires Rank(f, Confirm) >= 0 && Rank(f, e) >= 0 && e != Confirm
    ensures Rank(f, e) < Rank(f, Confirm)
  {
  }

  /** At the confirmation everything is there. */
  lemma ConfirmIsComplete(d: Draft, fixed: set<Key>)
    requires Good(d, fixed) && d.step == Some(Confirm)
    ensures Complete(d.flow.value, d.vals)
  {
    var f := d.flow.value;
    forall e | 0 <= Rank(f, e) && e != Confirm ensures Filled(d.vals, e) { ConfirmIsLast(f, e); }
    FilledIsComplete(f, d.vals);
  }

  /** A call that ends at the final action found nothing unfilled. */
  lemma FinishingIsFilled(d: Draft, cars: seq<Car>, x: Draft)
    requires Advance(d, cars) == Finishing(x)
    ensures x.flow.Some? && FirstUnfilled(x.vals, Order(x.flow.value)).None?
  {
  }

  lemma NothingUnfilled(f: Flow, v: Values)
    requires FirstUnfilled(v, Order(f)).None?
    ensures FilledUpTo(f, v, Confirm)
  {
    FirstUnfilledIn(v, Order(f));
    forall e | 0 <= Rank(f, e) ensures Filled(v, e) { RankIsPosition(f, e); }
  }

  lemma SaysFinishes(d: Draft, fixed: set<Key>, input: Input, cars: seq<Car>, now: int, x: Draft)
    requires Good(d, fixed) && AirportRide(d) && Do(d, Says(input, cars, now)) == Finishing(x)
    ensures x.flow.Some? && Complete(x.flow.value, x.vals)
  {
    var p := Accepts(d, input, cars, now).value;
    FinishingIsFilled(d.(vals := d.vals + p), cars, x);
    NothingUnfilled(x.flow.value, x.vals);
    if !Settles(input) {
      ToggleStays(d, fixed, input.international, cars, now);
    } else {
      AnswerProgress(d, fixed, input, cars, now);
      if d.flow == Some(Airport) {
        var r := d.(vals := d.vals + p, history := d.history + [d.step.value]);
        AnswerFacts(d, fixed, input, cars, now, r);
        AnswerEnds(d, fixed, p, r);
      }
    }
    FilledIsComplete(x.flow.value, x.vals);
  }

  lemma BackNeverFinishes(d: Draft, fixed: set<Key>, idem: string, driver: bool, cars: seq<Car>)
    requires Good(d, fixed)
    ensures !Back(d, idem, driver, cars).Finishing?
  {
    if |d.history| < 2 {
      var v := FreshAirport(idem, driver, if Search in d.vals then Some(d.vals[Search]) else None, cars);
    } else if NoChoice(d, cars) {
      BackWithoutChoice(d, fixed, idem, driver, cars);
      if |cars| == 1 { AutoCarAsksOn(d, fixed, cars[0]); }
    } else {
      BackWithChoice(d, fixed, idem, driver, cars);
    }
  }

  /** A flow with a confirmation never finds everything filled. */
  lemma ConfirmStaysOpen(f: Flow, v: Values)
    requires Rank(f, Confirm) >= 0
    ensures FirstUnfilled(v, Order(f)).Some?
  {
    FirstUnfilledIn(v, Order(f));
    RankIsPosition(f, Confirm);
    assert !Filled(v, Confirm);
  }

  lemma CarAndConfirm(f: Flow)
    requires Rank(f, AskCar) >= 0
    ensures Rank(f, Confirm) >= 0
  {
  }

  lemma AutoCarAsksOn(d: Draft, fixed: set<Key>, car: Car)
    requires Good(d, fixed) && |d.history| >= 2 && Previous(d) == AskCar
    ensures !AdvancePast(Cleared(d), car).Finishing?
  {
    assert Front(d.history)[|d.history| - 2] == AskCar;
    AskedRanks(d, fixed);
    CarAndConfirm(d.flow.value);
    ConfirmStaysOpen(d.flow.value, WithCar(Cleared(d).vals, car));
  }

  lemma {:induction false} ChatFinishes(d: Draft, fixed: set<Key>, acts: seq<Act>, x: Draft)
    requires Good(d, fixed) && AirportRide(d) && Chat(d, acts) == Finishing(x)
    ensures x.flow.Some? && Complete(x.flow.value, x.vals)
    decreases |acts|
  {
    var act := acts[0];
    if Do(d, act).Asking? {
      var d1 := Do(d, act).draft;
      DoGood(d, fixed, act);
      var fixed' :| Good(d1, fixed');
      ActAirportRide(d, fixed, act, d1);
      ChatFinishes(d1, fixed', acts[1..], x);
    } else {
      match act {
        case Says(input, cars, now) => SaysFinishes(d, fixed, input, cars, now, x);
        case GoesBack(idem, driver, cars) => BackNeverFinishes(d, fixed, idem, driver, cars);
      }
    }
  }

  /** MAIN. However a chat went: when it stands at the confirmation or comes to the final action, nothing that action reads is missing. */
  lemma NothingIsMissing(o: Opening, idem: string, driver: bool, search: Option<Value>, cars: seq<Car>, acts: seq<Act>)
    requires Open(o, idem, driver, search, cars).Asking?
    ensures match Chat(Open(o, idem, driver, search, cars).draft, acts)
            case Asking(r) => r.step == Some(Confirm) ==> r.flow.Some? && Complete(r.flow.value, r.vals)
            case Finishing(r) => r.flow.Some? && Complete(r.flow.value, r.vals)
            case _ => true
  {
    OpenGood(o, idem, driver, search, cars);
    OpenAirportRide(o, idem, driver, search, cars);
    var d := Open(o, idem, driver, search, cars).draft;
    var fixed :| Good(d, fixed);
    match Chat(d, acts)
    case Asking(r) =>
      ChatGood(d, fixed, acts);
      var fixed' :| Good(r, fixed');
      if r.step == Some(Confirm) { ConfirmIsComplete(r, fixed'); }
    case Finishing(r) => ChatFinishes(d, fixed, acts, r);
    case _ =>
  }

  /** The car step: without a car the flow ends, one car answers it by itself and is not in the history, of more the user chooses. */
  lemma OneCarAnswersItself(d: Draft, cars: seq<Car>)
    requires d.flow == Some(Publish) && !Filled(d.vals, AskCar)
    ensures var r := Advance(d, cars);
            && (cars == [] ==> r == Ended)
            && (|cars| == 1 ==>
                  && r.Asking? && r.draft.step.Some? && r.draft.step.value != AskCar && r.draft.history == Push(d.history, r.draft.step.value)
                  && r.draft.vals == d.vals[CarId := Text(cars[0].id)][MaxSeats := Num(cars[0].seats)])
            && (|cars| >= 2 ==> r == Asking(d.(step := Some(AskCar), history := Push(d.history, AskCar))))
  {
    assert FirstUnfilled(d.vals, Order(Publish)) == Some(AskCar);
    if |cars| == 1 {
      var w := WithCar(d.vals, cars[0]);
      ConfirmStaysOpen(Publish, w);
      FirstUnfilledIn(w, Order(Publish));
    }
  }

  /** «Назад» at a first question: to the airport picker if the flow came from there, else out. */
  lemma BackFromTheFirst(d: Draft, idem: string, driver: bool, cars: seq<Car>) returns (v: Values)
    requires |d.history| <= 1
    ensures Back(d, idem, driver, cars) ==
            if AirportId in d.vals && d.flow != Some(Airport) then Asking(Draft(Some(Airport), Some(AskAirport), [AskAirport], v)) else Ended
    ensures v.Keys <= {Idem, AsDriver, Search} && Is(v, Idem, Text(idem)) && Is(v, AsDriver, Flag(driver))
    ensures if Search in d.vals then Is(v, Search, d.vals[Search]) else Search !in v
  {
    v := FreshAirport(idem, driver, if Search in d.vals then Some(d.vals[Search]) else None, cars);
  }
}

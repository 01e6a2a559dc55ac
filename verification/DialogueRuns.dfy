/** Whole chats: every flow starts with a good question, and history never lies. */
module DialogueRuns {
  import opened Prelude
  import opened Dialogue
  import opened DialogueUndo

  // ---------------------------------------------------------------- the first question

  /** A flow that has asked nothing yet and holds whole steps or none asks a good first question. */
  lemma FreshGood(d: Draft, cars: seq<Car>)
    requires d.flow.Some? && d.history == [] && Fixed(d.flow.value, d.vals.Keys)
    ensures Advance(d, cars).Asking? ==> exists fixed :: Good(Advance(d, cars).draft, fixed)
  {
    var f, next := d.flow.value, FirstUnfilled(d.vals, Order(d.flow.value));
    assert Sound(f, d.vals, d.vals.Keys, []);
    if next.Some? {
      NextIsWhereItStands(f, d.vals, next.value);
      if next.value == AskCar && |cars| == 1 {
        AutoCarGood(d, d.vals.Keys, cars[0]);
      } else if next.value != AskCar || |cars| > 1 {
        AskNext(d, d.vals.Keys, cars, next.value);
      }
    }
  }

  /** The keys of an automatically answered car step are fixed from then on. */
  function WithCar(v: Values, car: Car): Values { v[CarId := Text(car.id)][MaxSeats := Num(car.seats)] }

  lemma CarFixed(f: Flow, v: Values, fixed: set<Key>, car: Car)
    requires Sound(f, v, fixed, [])
    ensures Sound(f, WithCar(v, car), fixed + {CarId, MaxSeats}, [])
  {
    forall s | Rank(f, s) >= 0 && (Main(s).Some? ==> Main(s).value !in fixed + {CarId, MaxSeats})
      ensures Keys(s) !! fixed + {CarId, MaxSeats}
    {
      OnlyCarOwnsCar(s);
      assert Keys(s) !! fixed;
    }
  }

  lemma OnlyCarOwnsCar(s: Step)
    ensures CarId in Keys(s) || MaxSeats in Keys(s) ==> Main(s) == Some(CarId)
  {
  }

  lemma AutoCarGood(d: Draft, fixed: set<Key>, car: Car)
    requires d.flow.Some? && d.history == [] && Sound(d.flow.value, d.vals, fixed, [])
    ensures AdvancePast(d, car).Asking? ==> Good(AdvancePast(d, car).draft, fixed + {CarId, MaxSeats})
  {
    var f, w := d.flow.value, WithCar(d.vals, car);
    var next := FirstUnfilled(w, Order(f));
    CarFixed(f, d.vals, fixed, car);
    if next.Some? {
      NextIsWhereItStands(f, w, next.value);
      var d' := AdvancePast(d, car).draft;
      assert Front(d'.history) == [];
    }
  }

  lemma NoStepOwnsBookkeeping(s: Step)
    ensures Idem !in Keys(s) && AsDriver !in Keys(s) && Search !in Keys(s)
  {
  }

  /** A flow whose preset holds whole steps or none starts with a good question. */
  lemma StartGood(flow: Flow, preset: Values, idem: string, driver: bool, search: Option<Value>, cars: seq<Car>)
    requires Fixed(flow, preset.Keys)
    ensures var r := Start(flow, preset, idem, driver, search, cars);
            r.Asking? ==> exists fixed :: Good(r.draft, fixed)
  {
    var role := if flow == Airport then map[AsDriver := Flag(driver)] else map[];
    var kept := if search.Some? then map[Search := search.value] else map[];
    var v: Values := map[Idem := Text(idem)] + role + preset + kept;
    assert v.Keys <= preset.Keys + {Idem, AsDriver, Search} && preset.Keys <= v.Keys;
    forall s | Rank(flow, s) >= 0 && (Main(s).Some? ==> Main(s).value !in v.Keys) ensures Keys(s) !! v.Keys {
      NoStepOwnsBookkeeping(s);
      assert Keys(s) !! preset.Keys;
    }
    FreshGood(Draft(Some(flow), None, [], v), cars);
  }

  // ---------------------------------------------------------------- how a flow opens

  /** Every way the bot opens a flow; departures and pickups are instants, `ended` the values of a flow just ended. */
  datatype Opening =
    | FromMenu(flow: Flow)
    | BookTrip(trip: string, seats: int, fromId: int, toId: int, departure: int, price: int)
    | OfferRide(request: string, fromId: int, toId: int, departure: int, flexible: bool)
    | PublishTransfer(ended: Values, pickup: int)
    | RequestTransfer(ended: Values, pickup: int)
    | RequestRoute(ended: Values)

  function Carried(v: Values, keys: set<Key>): Values { map k | k in keys && k in v :: v[k] }

  /** What the airport flow hands on. */
  function RidePreset(ended: Values, pickup: int): Values {
    Carried(ended, {From, To, AirportId, AirportDir}) + map[Date := Num(DayOf(pickup)), Time := Num(MinuteOf(pickup))]
  }

  function FlowOf(o: Opening): Flow {
    match o
    case FromMenu(flow) => flow
    case BookTrip(_, _, _, _, _, _) => Book
    case OfferRide(_, _, _, _, _) => Offer
    case PublishTransfer(_, _) => Publish
    case RequestTransfer(_, _) => NeedRide
    case RequestRoute(_) => NeedRide
  }

  function Preset(o: Opening): Values {
    match o
    case FromMenu(_) => map[]
    case BookTrip(trip, seats, a, b, departure, price) =>
      map[TargetId := Text(trip), MaxSeats := Num(seats), From := Num(a), To := Num(b),
          Date := Num(DayOf(departure)), Time := Num(MinuteOf(departure)), Price := Num(price)]
    case OfferRide(request, a, b, departure, flexible) =>
      map[TargetId := Text(request), From := Num(a), To := Num(b), Date := Num(DayOf(departure))]
      + (if flexible then map[] else map[HintTime := Num(MinuteOf(departure))])
    case PublishTransfer(ended, pickup) => RidePreset(ended, pickup)
    case RequestTransfer(ended, pickup) =>
      RidePreset(ended, pickup) + map[Flight := if Flight in ended then ended[Flight] else Null]
    case RequestRoute(ended) =>
      Carried(ended, {From, AirportId}) + map[To := if To in ended then ended[To] else Null]
  }

  /** The first screen: a request offered on an empty search is stored and goes on without a start. */
  function Open(o: Opening, idem: string, driver: bool, search: Option<Value>, cars: seq<Car>): Screen {
    if o.RequestTransfer? || o.RequestRoute? then Advance(Draft(Some(NeedRide), None, [], Preset(o)), cars)
    else Start(FlowOf(o), Preset(o), idem, driver, search, cars)
  }

  /** A preset of main keys only holds whole steps. */
  lemma MainKeysAreWhole(f: Flow, keys: set<Key>)
    requires forall s, k :: Rank(f, s) >= 0 && k in Keys(s) && k in keys ==> Main(s) == Some(k)
    ensures Fixed(f, keys)
  {
  }

  /** Every preset the bot uses holds whole steps or none. */
  lemma PresetIsWhole(o: Opening)
    ensures Fixed(FlowOf(o), Preset(o).Keys)
  {
    var keys := Preset(o).Keys;
    forall s, k | Rank(FlowOf(o), s) >= 0 && k in Keys(s) && k in keys ensures Main(s) == Some(k) {}
    MainKeysAreWhole(FlowOf(o), keys);
  }

  lemma OpenGood(o: Opening, idem: string, driver: bool, search: Option<Value>, cars: seq<Car>)
    ensures var r := Open(o, idem, driver, search, cars); r.Asking? ==> exists fixed :: Good(r.draft, fixed)
  {
    PresetIsWhole(o);
    if o.RequestTransfer? || o.RequestRoute? {
      FreshGood(Draft(Some(NeedRide), None, [], Preset(o)), cars);
    } else {
      StartGood(FlowOf(o), Preset(o), idem, driver, search, cars);
    }
  }

  // ---------------------------------------------------------------- every run

  datatype Act = Says(input: Input, cars: seq<Car>, now: int) | GoesBack(idem: string, driver: bool, cars: seq<Car>)

  function Do(d: Draft, act: Act): Screen {
    match act
    case Says(input, cars, now) =>
      var p := Accepts(d, input, cars, now);
      if p.None? then Asking(d) else Answer(d, p.value, cars)
    case GoesBack(idem, driver, cars) => Back(d, idem, driver, cars)
  }

  /** The chat after a sequence of acts, as long as it keeps asking. */
  function Chat(d: Draft, acts: seq<Act>): Screen
    decreases |acts|
  {
    if acts == [] then Asking(d)
    else var r := Do(d, acts[0]); if r.Asking? then Chat(r.draft, acts[1..]) else r
  }

  /** The car step is the first of its flow, so nothing was asked before it. */
  lemma NothingBeforeCar(d: Draft, fixed: set<Key>)
    requires Good(d, fixed) && |d.history| >= 2 && Previous(d) == AskCar
    ensures |d.history| == 2
  {
    GoodRises(d, fixed);
    if |d.history| > 2 { RisingRanks(d.flow.value, d.history, |d.history| - 3, |d.history| - 2); }
  }

  lemma BackGood(d: Draft, fixed: set<Key>, idem: string, driver: bool, cars: seq<Car>)
    requires Good(d, fixed)
    ensures var r := Back(d, idem, driver, cars); r.Asking? ==> exists fixed' :: Good(r.draft, fixed')
  {
    if |d.history| < 2 {
      var none: Values := map[];
      PresetIsWhole(FromMenu(Airport));
      StartGood(Airport, none, idem, driver, if Search in d.vals then Some(d.vals[Search]) else None, cars);
    } else if NoChoice(d, cars) {
      BackToSingleCar(d, fixed, idem, driver, cars);
    } else {
      BackAsksThePrevious(d, fixed, idem, driver, cars);
    }
  }

  /** Back to the car step with no choice left: it answers itself again, or the flow ends. */
  lemma BackToSingleCar(d: Draft, fixed: set<Key>, idem: string, driver: bool, cars: seq<Car>)
    requires Good(d, fixed) && |d.history| >= 2 && NoChoice(d, cars)
    ensures var r := Back(d, idem, driver, cars); r.Asking? ==> Good(r.draft, fixed + {CarId, MaxSeats})
  {
    NothingBeforeCar(d, fixed);
    ClearedSound(d, fixed);
    BackWithoutChoice(d, fixed, idem, driver, cars);
    assert Cleared(d).history == [];
    if |cars| == 1 { AutoCarGood(Cleared(d), fixed, cars[0]); }
  }

  lemma DoGood(d: Draft, fixed: set<Key>, act: Act)
    requires Good(d, fixed)
    ensures Do(d, act).Asking? ==> exists fixed' :: Good(Do(d, act).draft, fixed')
  {
    match act
    case Says(input, cars, now) =>
      if Accepts(d, input, cars, now).Some? {
        if Settles(input) { AnswerProgress(d, fixed, input, cars, now); } else { ToggleStays(d, fixed, input.international, cars, now); }
      }
    case GoesBack(idem, driver, cars) => BackGood(d, fixed, idem, driver, cars);
  }

  /**
   The history rises strictly along the flow and ends with the step being asked,
   which is the first unfilled one and has none of its keys in the draft.
   */
  ghost predicate Honest(d: Draft) {
    && d.flow.Some? && d.history != [] && d.step == Some(Last(d.history))
    && Rising(d.flow.value, d.history)
    && FirstUnfilled(d.vals, Order(d.flow.value)) == d.step
    && Keys(d.step.value) !! d.vals.Keys
  }

  /** MAIN. However the flow opened, whatever the user says and however often he goes back, the history is honest. */
  lemma HistoryNeverLies(o: Opening, idem: string, driver: bool, search: Option<Value>, cars: seq<Car>, acts: seq<Act>)
    requires Open(o, idem, driver, search, cars).Asking?
    ensures var r := Chat(Open(o, idem, driver, search, cars).draft, acts); r.Asking? ==> Honest(r.draft)
  {
    OpenGood(o, idem, driver, search, cars);
    var d := Open(o, idem, driver, search, cars).draft;
    var fixed :| Good(d, fixed);
    ChatGood(d, fixed, acts);
    if Chat(d, acts).Asking? {
      var r := Chat(d, acts).draft;
      var fixed' :| Good(r, fixed');
      GoodIsHonest(r, fixed');
    }
  }

  lemma GoodIsHonest(d: Draft, fixed: set<Key>)
    requires Good(d, fixed)
    ensures Honest(d)
  {
    NextIsWhereItStands(d.flow.value, d.vals, d.step.value);
    GoodRises(d, fixed);
    AskedStepIsBlank(d, fixed);
  }

  /** A chat that began with a good question is always at one. */
  lemma {:induction false} ChatGood(d: Draft, fixed: set<Key>, acts: seq<Act>)
    requires Good(d, fixed)
    ensures Chat(d, acts).Asking? ==> exists fixed' :: Good(Chat(d, acts).draft, fixed')
    decreases |acts|
  {
    if acts != [] {
      DoGood(d, fixed, acts[0]);
      var r := Do(d, acts[0]);
      if r.Asking? {
        var fixed' :| Good(r.draft, fixed');
        ChatGood(r.draft, fixed', acts[1..]);
      }
    }
  }

  /** Every act of the list is an accepted answer that settles its step. */
  predicate AllSettle(d: Draft, acts: seq<Act>)
    decreases |acts|
  {
    acts == [] ||
    (acts[0].Says? && Settles(acts[0].input) && Accepts(d, acts[0].input, acts[0].cars, acts[0].now).Some?
     && (Do(d, acts[0]).Asking? ==> AllSettle(Do(d, acts[0]).draft, acts[1..])))
  }

  /** MAIN. A flow finishes within its step count: that many answers cannot all leave it asking. */
  lemma {:induction false} FlowFinishes(d: Draft, fixed: set<Key>, acts: seq<Act>)
    requires Good(d, fixed) && AllSettle(d, acts) && Chat(d, acts).Asking?
    ensures |acts| < |Order(d.flow.value)| - Rank(d.flow.value, d.step.value)
    decreases |acts|
  {
    RankIsPosition(d.flow.value, d.step.value);
    if acts != [] {
      AnswerProgress(d, fixed, acts[0].input, acts[0].cars, acts[0].now);
      FlowFinishes(Do(d, acts[0]).draft, fixed, acts[1..]);
    }
  }

  // ---------------------------------------------------------------- where «Назад» is not an exact undo

  lemma SecondUnfilled(v: Values, order: seq<Step>)
    requires |order| >= 2 && Filled(v, order[0]) && !Filled(v, order[1])
    ensures FirstUnfilled(v, order) == Some(order[1])
  {
    assert order[1..][0] == order[1];
  }

  /** The first question of «Опубликовать» for a driver with a choice of cars. */
  function CarQuestion(idem: string): Draft { Draft(Some(Publish), Some(AskCar), [AskCar], map[Idem := Text(idem)]) }

  /** The second one, after the choice. */
  function FromQuestion(idem: string, car: Car): Draft {
    Draft(Some(Publish), Some(AskFrom), [AskCar, AskFrom],
          map[Idem := Text(idem)] + map[CarId := Text(car.id), MaxSeats := Num(car.seats)])
  }

  lemma PublishOpens(idem: string, cars: seq<Car>)
    requires |cars| >= 2
    ensures Open(FromMenu(Publish), idem, true, None, cars) == Asking(CarQuestion(idem))
  {
    var v: Values := map[Idem := Text(idem)];
    assert v + map[] + map[] + map[] == v;
  }

  lemma CarChosen(idem: string, cars: seq<Car>, now: int)
    requires |cars| >= 2
    ensures Do(CarQuestion(idem), Says(CarIs(cars[0].id), cars, now)) == Asking(FromQuestion(idem, cars[0]))
  {
    var d := CarQuestion(idem);
    var p := map[CarId := Text(cars[0].id), MaxSeats := Num(cars[0].seats)];
    assert Accepts(d, CarIs(cars[0].id), cars, now) == Some(p);
    SecondUnfilled(d.vals + p, Order(Publish));
  }

  /**
   «Назад» cannot ask for the car again: a driver with two cars chose one, is left
   with one, and goes back - reached from the menu by a real answer.
   */
  lemma CarChoiceCanVanish(a: Car, b: Car, idem: string, now: int)
    ensures Open(FromMenu(Publish), idem, true, None, [a, b]) == Asking(CarQuestion(idem))
    ensures Chat(CarQuestion(idem), [Says(CarIs(a.id), [a, b], now)]) == Asking(FromQuestion(idem, a))
    ensures NoChoice(FromQuestion(idem, a), [a])
    ensures Back(FromQuestion(idem, a), idem, true, [a]) != Asking(Rewound(FromQuestion(idem, a)))
  {
    PublishOpens(idem, [a, b]);
    CarChosen(idem, [a, b], now);
    OneAct(CarQuestion(idem), Says(CarIs(a.id), [a, b], now));
    OpenGood(FromMenu(Publish), idem, true, None, [a, b]);
    var fixed :| Good(CarQuestion(idem), fixed);
    DoGood(CarQuestion(idem), fixed, Says(CarIs(a.id), [a, b], now));
    var fixed' :| Good(FromQuestion(idem, a), fixed');
    BackAsksThePrevious(FromQuestion(idem, a), fixed', idem, true, [a]);
  }

  lemma OneAct(d: Draft, act: Act)
    ensures Chat(d, [act]) == Do(d, act)
  {
    var r := Do(d, act);
    if r.Asking? { assert Chat(r.draft, [act][1..]) == Asking(r.draft); }
  }

  /** The first question of the airport flow. */
  function AirportQuestion(idem: string, driver: bool): Draft {
    Draft(Some(Airport), Some(AskAirport), [AskAirport], map[Idem := Text(idem), AsDriver := Flag(driver)])
  }

  lemma AirportOpens(idem: string, driver: bool)
    ensures Open(FromMenu(Airport), idem, driver, None, []) == Asking(AirportQuestion(idem, driver))
  {
    var v: Values := map[Idem := Text(idem)] + map[AsDriver := Flag(driver)];
    assert v + map[] + map[] == v && v == map[Idem := Text(idem), AsDriver := Flag(driver)];
  }

  lemma AirportPicked(idem: string, driver: bool, airport: int, international: bool)
    ensures Do(AirportQuestion(idem, driver), Says(AirportIs(airport, international), [], 0)).Asking?
  {
    var v := AirportQuestion(idem, driver).vals + map[AirportId := Num(airport), FlightType := KindOf(international)];
    SecondUnfilled(v, Order(Airport));
  }

  /** The flight type survives «Назад» to the airport pick: from the menu, the draft is not the one before the pick. */
  lemma AirportPickLeavesFlightType(airport: int, international: bool, idem: string, driver: bool)
    ensures var first := AirportQuestion(idem, driver);
            var picked := Do(first, Says(AirportIs(airport, international), [], 0));
            && Open(FromMenu(Airport), idem, driver, None, []) == Asking(first) && picked.Asking?
            && Back(picked.draft, idem, driver, []) == Asking(first.(vals := first.vals[FlightType := KindOf(international)]))
            && Back(picked.draft, idem, driver, []) != Asking(first)
  {
    var first := AirportQuestion(idem, driver);
    AirportOpens(idem, driver);
    AirportPicked(idem, driver, airport, international);
    OpenGood(FromMenu(Airport), idem, driver, None, []);
    var fixed :| Good(first, fixed);
    BackUndoesAnswer(first, fixed, AirportIs(airport, international), [], 0, idem, driver);
    assert FlightType !in first.vals;
  }
}

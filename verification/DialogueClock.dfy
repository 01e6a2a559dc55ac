/**
 When a question can be answered at all. The clock runs while the chat waits, and
 the time steps refuse what is less than half an hour ahead, so late in the day a
 reached question may take no answer.
 */
module DialogueClock {
  import opened Prelude
  import opened Dialogue
  import opened DialogueUndo
  import opened DialogueRuns

  // ---------------------------------------------------------------- what the time keys hold

  predicate SearchFlow(f: Flow) { f == FindTrip || f == FindPassengers }

  /** A day is a number (or «any» in a search), a flight an instant of a whole minute. */
  predicate Typed(f: Flow, v: Values) {
    && (Date in v ==> v[Date].Num? || (v[Date] == Null && SearchFlow(f)))
    && (FlightAt in v ==> v[FlightAt].Num? && v[FlightAt].n % MINUTE_MS == 0)
  }

  predicate Sane(d: Draft) { d.flow.Some? && Typed(d.flow.value, d.vals) }

  lemma InstantIsWhole(day: int, minute: int)
    ensures Instant(day, minute) % MINUTE_MS == 0
  {
    assert Instant(day, minute) == MINUTE_MS * (1440 * day + minute - 360);
  }

  lemma AcceptsTyped(d: Draft, input: Input, cars: seq<Car>, now: int)
    requires Sane(d) && Accepts(d, input, cars, now).Some?
    ensures Typed(d.flow.value, d.vals + Accepts(d, input, cars, now).value)
  {
    if input.FlightHourIs? && Date in d.vals && d.vals[Date].Num? { InstantIsWhole(d.vals[Date].n, input.minute); }
  }

  lemma AdvanceSane(d: Draft, cars: seq<Car>)
    requires Sane(d)
    ensures Advance(d, cars).Asking? ==> Sane(Advance(d, cars).draft)
  {
  }

  lemma StartSane(flow: Flow, preset: Values, idem: string, driver: bool, search: Option<Value>, cars: seq<Car>)
    requires Typed(flow, preset)
    ensures var r := Start(flow, preset, idem, driver, search, cars); r.Asking? ==> Sane(r.draft)
  {
    var role := if flow == Airport then map[AsDriver := Flag(driver)] else map[];
    var kept := if search.Some? then map[Search := search.value] else map[];
    AdvanceSane(Draft(Some(flow), None, [], map[Idem := Text(idem)] + role + preset + kept), cars);
  }

  lemma OpenSane(o: Opening, idem: string, driver: bool, search: Option<Value>, cars: seq<Car>)
    ensures var r := Open(o, idem, driver, search, cars); r.Asking? ==> Sane(r.draft)
  {
    assert Typed(FlowOf(o), Preset(o));
    if o.RequestTransfer? || o.RequestRoute? {
      AdvanceSane(Draft(Some(NeedRide), None, [], Preset(o)), cars);
    } else {
      StartSane(FlowOf(o), Preset(o), idem, driver, search, cars);
    }
  }

  lemma BackSane(d: Draft, idem: string, driver: bool, cars: seq<Car>)
    requires Sane(d)
    ensures var r := Back(d, idem, driver, cars); r.Asking? ==> Sane(r.draft)
  {
    var n := |d.history|;
    if n < 2 {
      StartSane(Airport, map[], idem, driver, if Search in d.vals then Some(d.vals[Search]) else None, cars);
    } else {
      AdvanceSane(d.(vals := d.vals - Keys(d.history[n - 2]), history := d.history[..n - 2]), cars);
    }
  }

  lemma DoSane(d: Draft, act: Act)
    requires Sane(d)
    ensures Do(d, act).Asking? ==> Sane(Do(d, act).draft)
  {
    match act
    case Says(input, cars, now) =>
      if Accepts(d, input, cars, now).Some? {
        AcceptsTyped(d, input, cars, now);
        AdvanceSane(d.(vals := d.vals + Accepts(d, input, cars, now).value), cars);
      }
    case GoesBack(idem, driver, cars) => BackSane(d, idem, driver, cars);
  }

  lemma {:induction false} ChatSane(d: Draft, acts: seq<Act>)
    requires Sane(d)
    ensures Chat(d, acts).Asking? ==> Sane(Chat(d, acts).draft)
    decreases |acts|
  {
    if acts != [] {
      DoSane(d, acts[0]);
      var r := Do(d, acts[0]);
      if r.Asking? { ChatSane(r.draft, acts[1..]); }
    }
  }

  // ---------------------------------------------------------------- the last possible time

  lemma LastMinuteIsLatest(d: Draft, minute: int, now: int)
    requires minute <= LAST_MINUTE && !TooSoon(d, minute, now)
    ensures !TooSoon(d, LAST_MINUTE, now)
  {
  }

  /** Dividing an offset day: the day and the rest of it. */
  lemma DayAndRest(at: int)
    ensures var local := at + BISHKEK_OFFSET; var rest := local - DAY_MS * DayOf(at);
            0 <= rest < DAY_MS && at == Instant(DayOf(at), 0) + rest
  {
    assert (at + BISHKEK_OFFSET) == DAY_MS * ((at + BISHKEK_OFFSET) / DAY_MS) + (at + BISHKEK_OFFSET) % DAY_MS;
  }

  lemma WholeBelow(a: int, b: int)
    requires a % MINUTE_MS == 0 && b % MINUTE_MS == 0 && a < b
    ensures a <= b - MINUTE_MS
  {
    var x, y := a / MINUTE_MS, b / MINUTE_MS;
    assert a == MINUTE_MS * x && b == MINUTE_MS * y;
    assert x < y;
  }

  /** A typed pickup lies a minute or more before the flight. */
  lemma PickupBeforeFlight(flightAt: int, minute: int)
    requires flightAt % MINUTE_MS == 0 && IsMinute(minute)
    ensures TypedPickup(flightAt, minute) <= flightAt - MINUTE_MS
  {
    var at := Instant(DayOf(flightAt), minute);
    DayAndRest(flightAt);
    InstantIsWhole(DayOf(flightAt), minute);
    InstantIsWhole(DayOf(flightAt) - 1, minute);
    assert Instant(DayOf(flightAt) - 1, minute) == at - DAY_MS;
    WholeBelow(TypedPickup(flightAt, minute), flightAt);
  }

  /** The minute of the day just before an instant of a whole minute. */
  function MinuteBefore(flightAt: int): int {
    var rest := flightAt - Instant(DayOf(flightAt), 0); if rest == 0 then LAST_MINUTE else rest / MINUTE_MS - 1
  }

  /** And that minute can be typed: a pickup exactly one minute before the flight. */
  lemma MinuteBeforeIsTypable(flightAt: int)
    requires flightAt % MINUTE_MS == 0
    ensures IsMinute(MinuteBefore(flightAt)) && TypedPickup(flightAt, MinuteBefore(flightAt)) == flightAt - MINUTE_MS
  {
    DayAndRest(flightAt);
    InstantIsWhole(DayOf(flightAt), 0);
    var rest := flightAt - Instant(DayOf(flightAt), 0);
    var f, i := flightAt / MINUTE_MS, Instant(DayOf(flightAt), 0) / MINUTE_MS;
    assert flightAt == MINUTE_MS * f && Instant(DayOf(flightAt), 0) == MINUTE_MS * i;
    assert rest == MINUTE_MS * (f - i);
    assert rest / MINUTE_MS == f - i;
  }

  // ---------------------------------------------------------------- the answerable questions

  /** Whether any input at all settles the asked step at this moment. */
  ghost predicate Answerable(d: Draft, cars: seq<Car>, now: int) {
    exists input :: Settles(input) && Accepts(d, input, cars, now).Some?
  }

  /** What the bot could check before it asks. */
  predicate CanBeAnswered(d: Draft, cars: seq<Car>, now: int)
    requires d.step.Some?
  {
    match d.step.value
    case Confirm => false
    case AskCode => false
    case AskCar => cars != []
    case AskSeats => SeatsLimit(d) >= 1
    case AskTime =>
      d.flow == Some(NeedRide) || (Date in d.vals && d.vals[Date].Num? && Instant(d.vals[Date].n, LAST_MINUTE) >= now + MIN_LEAD_MS)
    case AskFlightTime => Date in d.vals && d.vals[Date].Num? && Instant(d.vals[Date].n, LAST_MINUTE) >= now + MIN_LEAD_MS
    case AskPickup => FlightAt in d.vals && d.vals[FlightAt].Num? && d.vals[FlightAt].n - MINUTE_MS >= now + MIN_LEAD_MS
    case _ => true
  }

  /** An answer the step takes whenever it takes one. */
  function SomeAnswer(d: Draft, cars: seq<Car>, now: int): Input
    requires d.step.Some?
  {
    match d.step.value
    case AskFrom => PlaceIs(1, None)
    case AskTo => PlaceIs(if From in d.vals && d.vals[From] == Num(1) then 2 else 1, None)
    case AskAirportEnd => PlaceIs(if AirportId in d.vals && d.vals[AirportId] == Num(1) then 2 else 1, None)
    case AskDate => DayIs(DayOf(now), false)
    case AskTime => if d.flow == Some(NeedRide) then Flexible else TimeIs(LAST_MINUTE)
    case AskSeats => SeatsAre(1)
    case AskPrice => PriceIs(50)
    case AskComment => Skip
    case AskFlight => Skip
    case AskCar => CarIs(if cars == [] then "" else cars[0].id)
    case AskAirport => AirportIs(1, true)
    case AskAirportDir => DirectionIs(true)
    case AskFlightTime => FlightHourIs(LAST_MINUTE)
    case AskPickup => PickupIs(if FlightAt in d.vals && d.vals[FlightAt].Num? then MinuteBefore(d.vals[FlightAt].n) else 0)
    case AskSign => SignIs(true)
    case AskLuggage => LuggageIs(0)
    case Confirm => Skip
    case AskCode => Skip
  }

  /** What an earlier step of the flow was answered with is there by the time a later one is asked. */
  lemma EarlierFilled(d: Draft, fixed: set<Key>, e: Step)
    requires Good(d, fixed) && 0 <= Rank(d.flow.value, e) < Rank(d.flow.value, d.step.value)
    ensures Filled(d.vals, e)
  {
  }

  lemma EndHasAirport(d: Draft, fixed: set<Key>)
    requires Good(d, fixed) && d.step == Some(AskAirportEnd)
    ensures AirportId in d.vals
  {
    assert d.flow == Some(Airport);
    EarlierFilled(d, fixed, AskAirport);
  }

  lemma TimeHasDay(d: Draft, fixed: set<Key>)
    requires Good(d, fixed) && (d.step == Some(AskTime) || d.step == Some(AskFlightTime))
    ensures Date in d.vals && !SearchFlow(d.flow.value)
  {
    DayComesFirst(d.flow.value, d.step.value);
    EarlierFilled(d, fixed, AskDate);
  }

  lemma DayComesFirst(f: Flow, s: Step)
    requires Rank(f, s) >= 0 && (s == AskTime || s == AskFlightTime)
    ensures 0 <= Rank(f, AskDate) < Rank(f, s) && !SearchFlow(f)
  {
  }

  lemma AnswerableIf(d: Draft, fixed: set<Key>, cars: seq<Car>, now: int)
    requires Good(d, fixed) && Sane(d) && CanBeAnswered(d, cars, now)
    ensures Answerable(d, cars, now)
  {
    if d.step == Some(AskAirportEnd) { EndHasAirport(d, fixed); }
    if d.step == Some(AskPickup) { MinuteBeforeIsTypable(d.vals[FlightAt].n); }
    var input := SomeAnswer(d, cars, now);
    assert Settles(input) && Accepts(d, input, cars, now).Some?;
  }

  lemma AnswerableOnlyIf(d: Draft, fixed: set<Key>, input: Input, cars: seq<Car>, now: int)
    requires Good(d, fixed) && Sane(d) && Settles(input) && Accepts(d, input, cars, now).Some?
    ensures CanBeAnswered(d, cars, now)
  {
    match input
    case TimeIs(minute) =>
      TimeHasDay(d, fixed);
      LastMinuteIsLatest(d, minute, now);
    case FlightHourIs(minute) => LastMinuteIsLatest(d, minute, now);
    case PickupIs(minute) => PickupBeforeFlight(d.vals[FlightAt].n, minute);
    case _ =>
  }

  /**
   MAIN. At every moment of every chat, however it opened and went: the question
   asked takes some answer exactly when it is not the confirmation (which has its
   own button), a car step has a car, a seats step a seat, and - for the time, flight
   time and pickup steps - the last minute of the chosen day, or the minute before
   the flight, is still half an hour ahead. A request may leave its time open.
   */
  lemma AnswerableExactly(o: Opening, idem: string, driver: bool, search: Option<Value>, cars: seq<Car>, acts: seq<Act>,
                          cars': seq<Car>, now: int)
    requires Open(o, idem, driver, search, cars).Asking?
    ensures var r := Chat(Open(o, idem, driver, search, cars).draft, acts);
            r.Asking? ==> r.draft.step.Some? && (Answerable(r.draft, cars', now) <==> CanBeAnswered(r.draft, cars', now))
  {
    OpenGood(o, idem, driver, search, cars);
    OpenSane(o, idem, driver, search, cars);
    var d := Open(o, idem, driver, search, cars).draft;
    var fixed :| Good(d, fixed);
    ChatGood(d, fixed, acts);
    ChatSane(d, acts);
    if Chat(d, acts).Asking? {
      var fixed' :| Good(Chat(d, acts).draft, fixed');
      AnswerableHere(Chat(d, acts).draft, fixed', cars', now);
    }
  }

  lemma AnswerableHere(d: Draft, fixed: set<Key>, cars: seq<Car>, now: int)
    requires Good(d, fixed) && Sane(d)
    ensures Answerable(d, cars, now) <==> CanBeAnswered(d, cars, now)
  {
    if CanBeAnswered(d, cars, now) { AnswerableIf(d, fixed, cars, now); }
    if Answerable(d, cars, now) {
      var input :| Settles(input) && Accepts(d, input, cars, now).Some?;
      AnswerableOnlyIf(d, fixed, input, cars, now);
    }
  }

  // ---------------------------------------------------------------- a dead end

  /** The first question of an offer: what time on the request's day. */
  function OfferQuestion(request: string, a: int, b: int, departure: int, idem: string): Draft {
    Draft(Some(Offer), Some(AskTime), [AskTime], map[Idem := Text(idem)] + Preset(OfferRide(request, a, b, departure, true)))
  }

  lemma OfferOpens(request: string, a: int, b: int, departure: int, idem: string)
    ensures Open(OfferRide(request, a, b, departure, true), idem, true, None, []) ==
            Asking(OfferQuestion(request, a, b, departure, idem))
  {
    var preset := Preset(OfferRide(request, a, b, departure, true));
    var none: Values := map[];
    var v := map[Idem := Text(idem)] + preset;
    assert map[Idem := Text(idem)] + none + preset + none == v;
    SecondUnfilled(v, Order(Offer));
  }

  /**
   The time step can be a dead end. A driver who offers a ride for a request of today
   is asked the time; from half past eleven at night on no time is accepted.
   */
  lemma LateOfferIsStuck(request: string, a: int, b: int, departure: int, idem: string, cars: seq<Car>, now: int)
    requires Instant(DayOf(departure), LAST_MINUTE) < now + MIN_LEAD_MS
    ensures Open(OfferRide(request, a, b, departure, true), idem, true, None, []) ==
            Asking(OfferQuestion(request, a, b, departure, idem))
    ensures !Answerable(OfferQuestion(request, a, b, departure, idem), cars, now)
  {
    OfferOpens(request, a, b, departure, idem);
    AnswerableExactly(OfferRide(request, a, b, departure, true), idem, true, None, [], [], cars, now);
  }

  /** Such a moment exists: a request for 23:50 of a day, an offer at 23:45. */
  lemma QuarterToMidnight(day: int)
    ensures var departure, now := Instant(day, LAST_MINUTE - 9), Instant(day, LAST_MINUTE - 14);
            now < departure && DayOf(departure) == day && Instant(DayOf(departure), LAST_MINUTE) < now + MIN_LEAD_MS
  {
    var departure := Instant(day, LAST_MINUTE - 9);
    DayAndRest(departure);
    assert DAY_MS * day <= departure + BISHKEK_OFFSET < DAY_MS * (day + 1);
  }
}

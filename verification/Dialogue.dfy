/**
 The Telegram dialogue: which step a flow asks next, what an answer writes, and
 what «Назад» forgets. A draft's values are a map: a key that is absent is
 undefined, `Null` is an explicit null. Typed and tapped input arrives parsed: a
 date as a day number of the Bishkek calendar, a time as a minute of the day.
 Instants are milliseconds.
 */
module Dialogue {
  import opened Prelude

  datatype Flow = FindTrip | NeedRide | FindPassengers | Publish | Airport | Book | Offer | Link

  datatype Step =
    | AskFrom | AskTo | AskDate | AskTime | AskSeats | AskPrice | AskComment | AskFlight | AskCar
    | AskAirport | AskAirportDir | AskAirportEnd | AskFlightTime | AskPickup | AskSign | AskLuggage
    | Confirm | AskCode

  datatype Key =
    | From | To | Date | Time | Seats | MaxSeats | Price | Comment | Flight | CarId | Point
    | AirportDir | AirportId | AirportEnd | FlightAt | PickupAt | FlightType | AsDriver | MeetSign | Luggage
    | TargetId | Idem | HintTime | Search | Phone

  datatype Value = Null | Num(n: int) | Text(s: string) | Flag(b: bool) | Place(lat: int, lng: int)

  type Values = map<Key, Value>

  datatype Draft = Draft(flow: Option<Flow>, step: Option<Step>, history: seq<Step>, vals: Values)

  datatype Car = Car(id: string, seats: int)

  // ---------------------------------------------------------------- Bishkek time

  const MINUTE_MS := 60_000
  const DAY_MS := 86_400_000
  const BISHKEK_OFFSET := 6 * 60 * MINUTE_MS
  const MIN_LEAD_MS := 30 * MINUTE_MS
  const MAX_DAYS_AHEAD := 60
  const LAST_MINUTE := 23 * 60 + 59

  /** A day and a minute of it, to the instant. */
  function Instant(day: int, minute: int): int { day * DAY_MS + minute * MINUTE_MS - BISHKEK_OFFSET }

  function DayOf(at: int): int { (at + BISHKEK_OFFSET) / DAY_MS }

  function MinuteOf(at: int): int { (at + BISHKEK_OFFSET) % DAY_MS / MINUTE_MS }

  predicate IsMinute(minute: int) { 0 <= minute <= LAST_MINUTE }

  // ---------------------------------------------------------------- the tables

  function Order(f: Flow): seq<Step> {
    match f
    case FindTrip => [AskFrom, AskTo, AskDate]
    case FindPassengers => [AskFrom, AskTo, AskDate]
    case NeedRide => [AskFrom, AskTo, AskDate, AskTime, AskSeats, AskFlight, AskSign, AskLuggage, AskComment, Confirm]
    case Publish => [AskCar, AskFrom, AskTo, AskDate, AskTime, AskSeats, AskPrice, AskComment, Confirm]
    case Airport => [AskAirport, AskAirportDir, AskAirportEnd, AskDate, AskFlightTime, AskPickup, AskFlight]
    case Book => [AskSeats, Confirm]
    case Offer => [AskDate, AskTime, AskPrice, AskComment, Confirm]
    case Link => [AskCode]
  }

  /** The keys a step owns: what «Назад» clears when it returns to the step. */
  function Keys(s: Step): set<Key> {
    match s
    case AskFrom => {From, Point}
    case AskTo => {To}
    case AskDate => {Date}
    case AskTime => {Time}
    case AskSeats => {Seats}
    case AskPrice => {Price}
    case AskComment => {Comment}
    case AskFlight => {Flight}
    case AskCar => {CarId, MaxSeats}
    case AskAirportDir => {AirportDir}
    case AskAirport => {AirportId}
    case AskAirportEnd => {AirportEnd, From, To}
    case AskFlightTime => {FlightAt, PickupAt}
    case AskPickup => {PickupAt}
    case AskSign => {MeetSign}
    case AskLuggage => {Luggage}
    case Confirm => {}
    case AskCode => {}
  }

  /** The key whose presence means the step is answered. */
  function Main(s: Step): Option<Key> {
    match s
    case AskFrom => Some(From)
    case AskTo => Some(To)
    case AskDate => Some(Date)
    case AskTime => Some(Time)
    case AskSeats => Some(Seats)
    case AskPrice => Some(Price)
    case AskComment => Some(Comment)
    case AskFlight => Some(Flight)
    case AskCar => Some(CarId)
    case AskAirportDir => Some(AirportDir)
    case AskAirport => Some(AirportId)
    case AskAirportEnd => Some(AirportEnd)
    case AskFlightTime => Some(FlightAt)
    case AskPickup => Some(PickupAt)
    case AskSign => Some(MeetSign)
    case AskLuggage => Some(Luggage)
    case Confirm => None
    case AskCode => None
  }

  /** Steps that do not apply to this draft. */
  predicate Skipped(v: Values, s: Step) {
    match s
    case AskFlight => AirportId !in v || (AsDriver in v && v[AsDriver] == Flag(true))
    case AskSign => AirportId !in v || From !in v || v[From] != v[AirportId]
    case AskLuggage => AirportId !in v
    case _ => false
  }

  predicate Filled(v: Values, s: Step) {
    (Main(s).Some? && Main(s).value in v) || Skipped(v, s)
  }

  // ---------------------------------------------------------------- moving forward

  function FirstUnfilled(v: Values, order: seq<Step>): Option<Step> {
    if order == [] then None
    else if !Filled(v, order[0]) then Some(order[0])
    else FirstUnfilled(v, order[1..])
  }

  function Push(history: seq<Step>, s: Step): seq<Step> {
    if history != [] && history[|history| - 1] == s then history else history + [s]
  }

  /** Where a call leaves the chat: asked a step, at the flow's final action, or with no session. */
  datatype Screen = Asking(draft: Draft) | Finishing(draft: Draft) | Ended | Menu

  /** What `advance` comes to: ask the first unfilled step, answering a single car by itself. */
  function Advance(d: Draft, cars: seq<Car>): Screen {
    if d.flow.None? then Menu
    else
      var next := FirstUnfilled(d.vals, Order(d.flow.value));
      if next.None? then Finishing(d)
      else if next.value == AskCar && |cars| == 0 then Ended
      else if next.value == AskCar && |cars| == 1 then AdvancePast(d, cars[0])
      else Asking(d.(step := next, history := Push(d.history, next.value)))
  }

  /** After the automatic answer of the car step, which leaves no trace in the history. */
  function AdvancePast(d: Draft, car: Car): Screen
    requires d.flow.Some?
  {
    var d' := d.(step := Some(AskCar), vals := d.vals[CarId := Text(car.id)][MaxSeats := Num(car.seats)]);
    var next := FirstUnfilled(d'.vals, Order(d.flow.value));
    if next.None? then Finishing(d') else Asking(d'.(step := next, history := Push(d.history, next.value)))
  }

  /** Starting a flow: its id, the airport flow's role, the preset, and the last search. */
  function Start(flow: Flow, preset: Values, idem: string, driver: bool, search: Option<Value>, cars: seq<Car>): Screen {
    var role := if flow == Airport then map[AsDriver := Flag(driver)] else map[];
    var kept := if search.Some? then map[Search := search.value] else map[];
    Advance(Draft(Some(flow), None, [], map[Idem := Text(idem)] + role + preset + kept), cars)
  }

  /** «Назад»: forget the previous answer and ask it again. */
  function Back(d: Draft, idem: string, driver: bool, cars: seq<Car>): Screen {
    var n := |d.history|;
    if n < 2 then
      if AirportId in d.vals && d.flow != Some(Airport)
      then Start(Airport, map[], idem, driver, if Search in d.vals then Some(d.vals[Search]) else None, cars)
      else Ended
    else Advance(d.(vals := d.vals - Keys(d.history[n - 2]), history := d.history[..n - 2]), cars)
  }

  // ---------------------------------------------------------------- answers

  datatype Input =
    | PlaceIs(id: int, pin: Option<Value>)   // a button, or a location with its pin
    | AnyPlace
    | DayIs(day: int, typed: bool)
    | AnyDay
    | TimeIs(minute: int)
    | Flexible
    | SeatsAre(n: int)
    | PriceIs(n: int)
    | CommentIs(text: string)
    | FlightIs(number: string)
    | Skip
    | CarIs(car: string)
    | DirectionIs(fromAirport: bool)
    | AirportIs(id: int, international: bool)
    | FlightHourIs(minute: int)
    | FlightKindIs(international: bool)
    | PickupIs(minute: int)
    | PickupSuggested(travelMin: nat)          // the button; the travel time is the service's answer
    | SignIs(wanted: bool)
    | LuggageIs(n: int)

  function SeatsLimit(d: Draft): int {
    var carries := if MaxSeats in d.vals && d.vals[MaxSeats].Num? then Some(d.vals[MaxSeats].n) else None;
    if d.flow == Some(Book) then Min(if carries.Some? then carries.value else 4, 4)
    else if d.flow == Some(Publish) then Min(if carries.Some? then carries.value else 7, 7)
    else 8
  }

  function KindOf(international: bool): Value { Text(if international then "international" else "domestic") }

  function FindCar(cars: seq<Car>, id: string): Option<Car> {
    if cars == [] then None else if cars[0].id == id then Some(cars[0]) else FindCar(cars[1..], id)
  }

  /** A departure less than the lead time ahead. */
  predicate TooSoonAt(at: int, now: int) { at < now + MIN_LEAD_MS }

  /** The same for a minute of the draft's day; a draft without a day has no such instant to compare. */
  predicate TooSoon(d: Draft, minute: int, now: int) {
    Date in d.vals && d.vals[Date].Num? && TooSoonAt(Instant(d.vals[Date].n, minute), now)
  }

  /** A typed pickup time: on the flight's day, or the evening before when that is not before the flight. */
  function TypedPickup(flightAt: int, minute: int): int {
    var at := Instant(DayOf(flightAt), minute); if at >= flightAt then at - DAY_MS else at
  }

  /** Check-in time before departure, in minutes. */
  function Buffer(v: Values): nat { if FlightType in v && v[FlightType] == KindOf(true) then 150 else 90 }

  /** A pickup instant, if it is not too soon. */
  function PickupPatch(at: int, now: int): Option<Values> {
    if TooSoonAt(at, now) then None else Some(map[PickupAt := Num(at)])
  }

  /** A flight time on the draft's day; from the airport the ride leaves at arrival. */
  function FlightTimePatch(d: Draft, minute: int, now: int): Option<Values> {
    if !IsMinute(minute) || TooSoon(d, minute, now) || Date !in d.vals || !d.vals[Date].Num? then None
    else
      var at := Num(Instant(d.vals[Date].n, minute));
      if AirportDir in d.vals && d.vals[AirportDir] == Text("from") then Some(map[FlightAt := at, PickupAt := at])
      else Some(map[FlightAt := at])
  }

  /** What an input writes into the draft at its current step, at the moment `now`; None: refused. */
  function Accepts(d: Draft, input: Input, cars: seq<Car>, now: int): Option<Values> {
    if d.flow.None? || d.step.None? then None
    else match (d.step.value, input)
      case (AskFrom, PlaceIs(id, pin)) =>
        Some(map[From := Num(id)] + (if pin.Some? then map[Point := pin.value] else map[]))
      case (AskTo, PlaceIs(id, pin)) =>
        if From in d.vals && d.vals[From] == Num(id) then None else Some(map[To := Num(id)])
      case (AskTo, AnyPlace) => if d.flow == Some(FindPassengers) then Some(map[To := Null]) else None
      case (AskAirportEnd, PlaceIs(id, pin)) =>
        if id <= 0 || AirportId !in d.vals || d.vals[AirportId] == Num(id) then None
        else if AirportDir in d.vals && d.vals[AirportDir] == Text("from")
        then Some(map[AirportEnd := Num(id), From := d.vals[AirportId], To := Num(id)])
        else Some(map[AirportEnd := Num(id), From := Num(id), To := d.vals[AirportId]])
      case (AskDate, DayIs(day, typed)) =>
        if day < DayOf(now) || (typed && day > DayOf(now + MAX_DAYS_AHEAD * DAY_MS)) then None else Some(map[Date := Num(day)])
      case (AskDate, AnyDay) =>
        if d.flow == Some(FindTrip) || d.flow == Some(FindPassengers) then Some(map[Date := Null]) else None
      case (AskTime, TimeIs(minute)) =>
        if !IsMinute(minute) || TooSoon(d, minute, now) then None else Some(map[Time := Num(minute)])
      case (AskTime, Flexible) => if d.flow == Some(NeedRide) then Some(map[Time := Text("")]) else None
      case (AskSeats, SeatsAre(n)) => if n < 1 || n > SeatsLimit(d) then None else Some(map[Seats := Num(n)])
      case (AskPrice, PriceIs(n)) => if n < 50 || n > 10_000 then None else Some(map[Price := Num(n)])
      case (AskComment, CommentIs(text)) => Some(map[Comment := Text(if |text| > 300 then text[..300] else text)])
      case (AskComment, Skip) => Some(map[Comment := Null])
      case (AskFlight, FlightIs(number)) => Some(map[Flight := Text(number)])
      case (AskFlight, Skip) => Some(map[Flight := Null])
      case (AskCar, CarIs(id)) =>
        var car := FindCar(cars, id);
        if car.None? then None else Some(map[CarId := Text(car.value.id), MaxSeats := Num(car.value.seats)])
      case (AskAirportDir, DirectionIs(from)) => Some(map[AirportDir := Text(if from then "from" else "to")])
      case (AskAirport, AirportIs(id, intl)) => Some(map[AirportId := Num(id), FlightType := KindOf(intl)])
      case (AskFlightTime, FlightHourIs(minute)) => FlightTimePatch(d, minute, now)
      case (AskPickup, FlightKindIs(intl)) => Some(map[FlightType := KindOf(intl)])
      case (AskPickup, PickupIs(minute)) =>
        if !IsMinute(minute) || FlightAt !in d.vals || !d.vals[FlightAt].Num? then None
        else PickupPatch(TypedPickup(d.vals[FlightAt].n, minute), now)
      case (AskPickup, PickupSuggested(travelMin)) =>
        if FlightAt !in d.vals || !d.vals[FlightAt].Num? then None
        else PickupPatch(d.vals[FlightAt].n - (Buffer(d.vals) + travelMin) * MINUTE_MS, now)
      case (AskSign, SignIs(wanted)) => Some(map[MeetSign := Flag(wanted)])
      case (AskLuggage, LuggageIs(n)) => if n < 0 || n > 5 then None else Some(map[Luggage := Num(n)])
      case _ => None
  }

  /** An accepted input: its values join the draft and the flow moves on. */
  function Answer(d: Draft, p: Values, cars: seq<Car>): Screen { Advance(d.(vals := d.vals + p), cars) }

  // ---------------------------------------------------------------- facts about the tables

  /** A step's place in its flow; -1 if the flow does not have it. */
  function Rank(f: Flow, s: Step): int {
    match f
    case FindTrip => (match s case AskFrom => 0 case AskTo => 1 case AskDate => 2 case _ => -1)
    case FindPassengers => (match s case AskFrom => 0 case AskTo => 1 case AskDate => 2 case _ => -1)
    case NeedRide =>
      (match s
       case AskFrom => 0 case AskTo => 1 case AskDate => 2 case AskTime => 3 case AskSeats => 4 case AskFlight => 5
       case AskSign => 6 case AskLuggage => 7 case AskComment => 8 case Confirm => 9 case _ => -1)
    case Publish =>
      (match s
       case AskCar => 0 case AskFrom => 1 case AskTo => 2 case AskDate => 3 case AskTime => 4 case AskSeats => 5
       case AskPrice => 6 case AskComment => 7 case Confirm => 8 case _ => -1)
    case Airport =>
      (match s
       case AskAirport => 0 case AskAirportDir => 1 case AskAirportEnd => 2 case AskDate => 3 case AskFlightTime => 4
       case AskPickup => 5 case AskFlight => 6 case _ => -1)
    case Book => (match s case AskSeats => 0 case Confirm => 1 case _ => -1)
    case Offer =>
      (match s case AskDate => 0 case AskTime => 1 case AskPrice => 2 case AskComment => 3 case Confirm => 4 case _ => -1)
    case Link => (match s case AskCode => 0 case _ => -1)
  }

  lemma RankIsPosition(f: Flow, s: Step)
    ensures forall i :: 0 <= i < |Order(f)| ==> Rank(f, Order(f)[i]) == i
    ensures -1 <= Rank(f, s) < |Order(f)|
    ensures Rank(f, s) >= 0 ==> Order(f)[Rank(f, s)] == s
  {
  }

  /** The keys a step's filled test looks at. */
  function Reads(s: Step): set<Key> {
    (if Main(s).Some? then {Main(s).value} else {})
    + (match s
       case AskFlight => {AirportId, AsDriver}
       case AskSign => {AirportId, From}
       case AskLuggage => {AirportId}
       case _ => {})
  }

  lemma FilledReads(v: Values, w: Values, s: Step)
    requires forall k :: k in Reads(s) ==> (k in v <==> k in w) && (k in v ==> v[k] == w[k])
    ensures Filled(v, s) == Filled(w, s) && Skipped(v, s) == Skipped(w, s)
  {
    if s == AskFlight || s == AskSign || s == AskLuggage { assert AirportId in Reads(s); }
    if s == AskFlight { assert AsDriver in Reads(s); }
    if s == AskSign { assert From in Reads(s); }
  }

  /** Why «Назад» works: a later step's keys are never read by an earlier step's filled test. */
  lemma LaterKeysUnread(f: Flow, earlier: Step, later: Step)
    requires 0 <= Rank(f, earlier) < Rank(f, later)
    ensures Keys(later) !! Reads(earlier)
  {
  }

  /** Two steps of one flow own a common key only if the later one's main key is it. */
  lemma KeysOverlapAtMain(f: Flow, earlier: Step, later: Step, k: Key)
    requires 0 <= Rank(f, earlier) < Rank(f, later) && k in Keys(earlier) && k in Keys(later)
    ensures Main(later) == Some(k)
  {
  }
}

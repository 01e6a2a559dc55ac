/**
 What an answer means: which inputs each step takes, in the numbers the user sees,
 and what the draft holds because of them - for every answer still standing at any
 moment of any chat.
 */
module DialogueSaid {
  import opened Prelude
  import opened Dialogue
  import opened DialogueUndo
  import opened DialogueRuns

  // ---------------------------------------------------------------- the bounds

  /** Local midnight in Bishkek, six hours ahead of UTC. */
  function Midnight(at: int): int { at - (at + 21_600_000) % 86_400_000 }

  predicate Is(v: Values, k: Key, x: Value) { k in v && v[k] == x }

  predicate IsNum(v: Values, k: Key) { k in v && v[k].Num? }

  /** The instant of a minute of day number `day` is half an hour ahead, if the draft has a day. */
  predicate HalfAnHourAhead(v: Values, minute: int, now: int) {
    IsNum(v, Date) ==> 86_400_000 * v[Date].n + 60_000 * minute - 21_600_000 >= now + 1_800_000
  }

  /** A time typed for a pickup: that minute of the flight's day, or of the day before if it would not be before the flight. */
  function PickupTyped(flightAt: int, minute: int): int {
    var sameDay := Midnight(flightAt) + 60_000 * minute;
    if sameDay < flightAt then sameDay else sameDay - 86_400_000
  }

  /** The suggested pickup: the ride and the check-in before the flight. */
  function PickupOffered(v: Values, travelMin: nat): int
    requires IsNum(v, FlightAt)
  {
    v[FlightAt].n - 60_000 * (travelMin + if Is(v, FlightType, Text("international")) then 150 else 90)
  }

  /** The inputs step `s` takes, by what the draft holds and the clock says. */
  ghost predicate Takes(f: Flow, s: Step, v: Values, input: Input, cars: seq<Car>, now: int) {
    match s
    case AskFrom => input.PlaceIs?
    case AskTo => (input.PlaceIs? && !Is(v, From, Num(input.id))) || (input.AnyPlace? && f == FindPassengers)
    case AskDate =>
      || (input.DayIs? && input.day >= (now + 21_600_000) / 86_400_000
          && (input.typed ==> input.day <= (now + 21_600_000) / 86_400_000 + 60))
      || (input.AnyDay? && (f == FindTrip || f == FindPassengers))
    case AskTime =>
      (input.TimeIs? && 0 <= input.minute <= 1439 && HalfAnHourAhead(v, input.minute, now)) || (input.Flexible? && f == NeedRide)
    case AskSeats =>
      && input.SeatsAre? && 1 <= input.n <= (if f == Book then 4 else if f == Publish then 7 else 8)
      && ((f == Book || f == Publish) && IsNum(v, MaxSeats) ==> input.n <= v[MaxSeats].n)
    case AskPrice => input.PriceIs? && 50 <= input.n <= 10_000
    case AskComment => input.CommentIs? || input.Skip?
    case AskFlight => input.FlightIs? || input.Skip?
    case AskCar => input.CarIs? && exists i :: 0 <= i < |cars| && cars[i].id == input.car
    case AskAirport => input.AirportIs?
    case AskAirportDir => input.DirectionIs?
    case AskAirportEnd => input.PlaceIs? && input.id > 0 && AirportId in v && v[AirportId] != Num(input.id)
    case AskFlightTime =>
      input.FlightHourIs? && 0 <= input.minute <= 1439 && IsNum(v, Date) && HalfAnHourAhead(v, input.minute, now)
    case AskPickup =>
      || (input.PickupIs? && 0 <= input.minute <= 1439 && IsNum(v, FlightAt)
          && PickupTyped(v[FlightAt].n, input.minute) >= now + 1_800_000)
      || (input.PickupSuggested? && IsNum(v, FlightAt) && PickupOffered(v, input.travelMin) >= now + 1_800_000)
      || input.FlightKindIs?
    case AskSign => input.SignIs?
    case AskLuggage => input.LuggageIs? && 0 <= input.n <= 5
    case Confirm => false
    case AskCode => false
  }

  /** What the draft `w` holds because `input` was said at step `s` of the draft `v`. */
  ghost predicate Holds(s: Step, v: Values, input: Input, cars: seq<Car>, w: Values) {
    match s
    case AskFrom =>
      && input.PlaceIs? && Is(w, From, Num(input.id))
      && (if input.pin.Some? then Is(w, Point, input.pin.value) else Point !in w)
    case AskTo => Is(w, To, if input.PlaceIs? then Num(input.id) else Null)
    case AskDate => Is(w, Date, if input.DayIs? then Num(input.day) else Null)
    case AskTime => Is(w, Time, if input.TimeIs? then Num(input.minute) else Text(""))
    case AskSeats => input.SeatsAre? && Is(w, Seats, Num(input.n))
    case AskPrice => input.PriceIs? && Is(w, Price, Num(input.n))
    case AskComment =>
      if input.CommentIs? then Comment in w && w[Comment].Text? && FirstChars(w[Comment].s, input.text) else Is(w, Comment, Null)
    case AskFlight => Is(w, Flight, if input.FlightIs? then Text(input.number) else Null)
    case AskCar =>
      input.CarIs? && Is(w, CarId, Text(input.car)) && exists i :: 0 <= i < |cars| && cars[i].id == input.car && Is(w, MaxSeats, Num(cars[i].seats))
    case AskAirport => input.AirportIs? && Is(w, AirportId, Num(input.id))
    case AskAirportDir => input.DirectionIs? && Is(w, AirportDir, Text(if input.fromAirport then "from" else "to"))
    case AskAirportEnd =>
      && input.PlaceIs? && Is(w, AirportEnd, Num(input.id)) && AirportId in w
      && (if Is(w, AirportDir, Text("from")) then Is(w, From, w[AirportId]) && Is(w, To, Num(input.id))
          else Is(w, From, Num(input.id)) && Is(w, To, w[AirportId]))
    case AskFlightTime =>
      input.FlightHourIs? && IsNum(w, Date) && Is(w, FlightAt, Num(86_400_000 * w[Date].n + 60_000 * input.minute - 21_600_000))
    case AskPickup =>
      || (input.PickupIs? && IsNum(w, FlightAt) && Is(w, PickupAt, Num(PickupTyped(w[FlightAt].n, input.minute))))
      || (input.PickupSuggested? && IsNum(v, FlightAt) && Is(w, PickupAt, Num(PickupOffered(v, input.travelMin))))
    case AskSign => input.SignIs? && Is(w, MeetSign, Flag(input.wanted))
    case AskLuggage => input.LuggageIs? && Is(w, Luggage, Num(input.n))
    case Confirm => false
    case AskCode => false
  }

  /** A comment keeps the first three hundred characters of what was typed. */
  predicate FirstChars(kept: string, text: string) {
    |kept| == (if |text| < 300 then |text| else 300) && kept <= text
  }

  // ---------------------------------------------------------------- one answer

  lemma {:induction false} FindCarIsAnOwn(cars: seq<Car>, id: string)
    ensures var r := FindCar(cars, id);
            && (r.Some? <==> exists i :: 0 <= i < |cars| && cars[i].id == id)
            && (r.Some? ==> exists i :: 0 <= i < |cars| && cars[i].id == id && cars[i] == r.value)
  {
    if cars != [] {
      if cars[0].id == id {
        assert FindCar(cars, id) == Some(cars[0]);
      } else {
        FindCarIsAnOwn(cars[1..], id);
        if exists i :: 0 <= i < |cars| && cars[i].id == id {
          var i :| 0 <= i < |cars| && cars[i].id == id;
          assert cars[1..][i - 1].id == id;
        }
        if FindCar(cars, id).Some? {
          var i :| 0 <= i < |cars[1..]| && cars[1..][i].id == id && cars[1..][i] == FindCar(cars[1..], id).value;
          assert cars[i + 1] == cars[1..][i];
        }
      }
    }
  }

  lemma TypedIsTyped(flightAt: int, minute: int)
    ensures TypedPickup(flightAt, minute) == PickupTyped(flightAt, minute)
  {
    var local := flightAt + 21_600_000;
    assert local == 86_400_000 * (local / 86_400_000) + local % 86_400_000;
  }

  lemma SixtyDaysOn(now: int)
    ensures DayOf(now + MAX_DAYS_AHEAD * DAY_MS) == (now + 21_600_000) / 86_400_000 + 60
  {
  }

  lemma PlacesExactly(d: Draft, input: Input, cars: seq<Car>, now: int)
    requires d.flow.Some? && d.step.Some? && d.step.value in {AskFrom, AskTo, AskAirport, AskAirportDir, AskAirportEnd}
    ensures Accepts(d, input, cars, now).Some? <==> Takes(d.flow.value, d.step.value, d.vals, input, cars, now)
  {
  }

  lemma TimesExactly(d: Draft, input: Input, cars: seq<Car>, now: int)
    requires d.flow.Some? && d.step.Some? && d.step.value in {AskDate, AskTime, AskFlightTime}
    ensures Accepts(d, input, cars, now).Some? <==> Takes(d.flow.value, d.step.value, d.vals, input, cars, now)
  {
    SixtyDaysOn(now);
  }

  lemma PickupsExactly(d: Draft, input: Input, cars: seq<Car>, now: int)
    requires d.flow.Some? && d.step == Some(AskPickup)
    ensures Accepts(d, input, cars, now).Some? <==> Takes(d.flow.value, AskPickup, d.vals, input, cars, now)
  {
    if input.PickupIs? && IsNum(d.vals, FlightAt) { TypedIsTyped(d.vals[FlightAt].n, input.minute); }
  }

  lemma OthersExactly(d: Draft, input: Input, cars: seq<Car>, now: int)
    requires d.flow.Some? && d.step.Some?
    requires d.step.value in {AskSeats, AskPrice, AskComment, AskFlight, AskCar, AskSign, AskLuggage, Confirm, AskCode}
    ensures Accepts(d, input, cars, now).Some? <==> Takes(d.flow.value, d.step.value, d.vals, input, cars, now)
  {
    if input.CarIs? { FindCarIsAnOwn(cars, input.car); }
  }

  /** MAIN. An input is accepted exactly when the asked step takes it. */
  lemma AcceptsExactly(d: Draft, input: Input, cars: seq<Car>, now: int)
    requires d.flow.Some? && d.step.Some?
    ensures Accepts(d, input, cars, now).Some? <==> Takes(d.flow.value, d.step.value, d.vals, input, cars, now)
  {
    match d.step.value
    case AskFrom | AskTo | AskAirport | AskAirportDir | AskAirportEnd => PlacesExactly(d, input, cars, now);
    case AskDate | AskTime | AskFlightTime => TimesExactly(d, input, cars, now);
    case AskPickup => PickupsExactly(d, input, cars, now);
    case _ => OthersExactly(d, input, cars, now);
  }

  lemma PlacesStored(d: Draft, input: Input, cars: seq<Car>, now: int)
    requires Settles(input) && Accepts(d, input, cars, now).Some? && d.step.Some? && Keys(d.step.value) !! d.vals.Keys
    requires d.step.value in {AskFrom, AskTo, AskAirport, AskAirportDir, AskAirportEnd}
    ensures Holds(d.step.value, d.vals, input, cars, d.vals + Accepts(d, input, cars, now).value)
  {
    if d.step == Some(AskAirportEnd) { assert AirportId !in Keys(AskAirportEnd) && AirportDir !in Keys(AskAirportEnd); }
  }

  lemma TimesStored(d: Draft, input: Input, cars: seq<Car>, now: int)
    requires Settles(input) && Accepts(d, input, cars, now).Some? && d.step.Some? && Keys(d.step.value) !! d.vals.Keys
    requires d.step.value in {AskDate, AskTime, AskFlightTime, AskPickup}
    ensures Holds(d.step.value, d.vals, input, cars, d.vals + Accepts(d, input, cars, now).value)
  {
    if input.PickupIs? && IsNum(d.vals, FlightAt) { TypedIsTyped(d.vals[FlightAt].n, input.minute); }
  }

  lemma OthersStored(d: Draft, input: Input, cars: seq<Car>, now: int)
    requires Settles(input) && Accepts(d, input, cars, now).Some? && d.step.Some? && Keys(d.step.value) !! d.vals.Keys
    requires d.step.value in {AskSeats, AskPrice, AskComment, AskFlight, AskCar, AskSign, AskLuggage, Confirm, AskCode}
    ensures Holds(d.step.value, d.vals, input, cars, d.vals + Accepts(d, input, cars, now).value)
  {
    if input.CarIs? { FindCarIsAnOwn(cars, input.car); }
  }

  /** MAIN. An accepted answer is stored as it was said. */
  lemma StoresWhatWasSaid(d: Draft, input: Input, cars: seq<Car>, now: int)
    requires Settles(input) && Accepts(d, input, cars, now).Some? && d.step.Some? && Keys(d.step.value) !! d.vals.Keys
    ensures Holds(d.step.value, d.vals, input, cars, d.vals + Accepts(d, input, cars, now).value)
  {
    match d.step.value
    case AskFrom | AskTo | AskAirport | AskAirportDir | AskAirportEnd => PlacesStored(d, input, cars, now);
    case AskDate | AskTime | AskFlightTime | AskPickup => TimesStored(d, input, cars, now);
    case _ => OthersStored(d, input, cars, now);
  }

  /** What two steps store besides: an airport brings its kind of flight, and a ride from the airport is picked up at arrival. */
  lemma StoresBesides(d: Draft, input: Input, cars: seq<Car>, now: int)
    requires Settles(input) && Accepts(d, input, cars, now).Some? && d.step.Some? && Keys(d.step.value) !! d.vals.Keys
    ensures var w := d.vals + Accepts(d, input, cars, now).value;
            && (d.step.value == AskAirport ==>
                  input.AirportIs? && Is(w, FlightType, Text(if input.international then "international" else "domestic")))
            && (d.step.value == AskFlightTime ==>
                  if Is(d.vals, AirportDir, Text("from")) then FlightAt in w && Is(w, PickupAt, w[FlightAt]) else PickupAt !in w)
  {
  }

  /** The toggle is taken at the pickup step alone, and sets the kind of flight. */
  lemma ToggleSetsTheKind(d: Draft, international: bool, cars: seq<Car>, now: int)
    requires d.flow.Some? && d.step.Some?
    ensures var p := Accepts(d, FlightKindIs(international), cars, now);
            && (p.Some? <==> d.step.value == AskPickup)
            && (p.Some? ==> p.value == map[FlightType := Text(if international then "international" else "domestic")])
  {
  }

  // ---------------------------------------------------------------- the answers still standing

  /** The keys an answer at `s` is about: what it writes, and what it was checked against. */
  function About(s: Step): set<Key> {
    match s
    case AskTo => {To, From}
    case AskTime => {Time, Date}
    case AskSeats => {Seats, MaxSeats}
    case AskAirportEnd => {AirportEnd, From, To, AirportId, AirportDir}
    case AskFlightTime => {FlightAt, Date, AirportDir}
    case AskPickup => {PickupAt, FlightAt}
    case _ => Keys(s)
  }

  /** A later step of the flow writes and clears none of them. */
  lemma AboutIsSettled(f: Flow, s: Step, later: Step)
    requires 0 <= Rank(f, s) < Rank(f, later)
    ensures About(s) !! Keys(later) && FlightType !in About(s)
  {
  }

  ghost predicate SameOn(v: Values, w: Values, keys: set<Key>) {
    forall k :: k in keys ==> (k in v <==> k in w) && (k in v ==> v[k] == w[k])
  }

  lemma HoldsReads(s: Step, v: Values, input: Input, cars: seq<Car>, w: Values, w': Values)
    requires Holds(s, v, input, cars, w) && SameOn(w, w', About(s))
    ensures Holds(s, v, input, cars, w')
  {
    if s == AskFrom { assert From in About(s) && Point in About(s); }
    if s == AskCar { assert CarId in About(s) && MaxSeats in About(s); }
    if s == AskAirportEnd { assert AirportEnd in About(s) && From in About(s) && To in About(s) && AirportId in About(s) && AirportDir in About(s); }
    if s == AskFlightTime { assert FlightAt in About(s) && Date in About(s); }
    if s == AskPickup { assert PickupAt in About(s) && FlightAt in About(s); }
    OwnIsAbout(s);
  }

  lemma OwnIsAbout(s: Step)
    ensures Main(s).Some? ==> Main(s).value in About(s)
  {
  }

  /** The chat before act `j`, if it is a question. */
  ghost predicate AskedBefore(d: Draft, acts: seq<Act>, j: nat, e: Draft) {
    j < |acts| && Chat(d, acts[..j]) == Asking(e)
  }

  /**
   Act `j` is where step `s`, as it stands in `w`, was answered: it was being asked, the
   input was one it takes, and what was said then is what `w` holds now.
   */
  ghost predicate SaidAt(d: Draft, acts: seq<Act>, j: nat, e: Draft, s: Step, w: Values) {
    && AskedBefore(d, acts, j, e) && e.flow.Some? && e.step == Some(s) && acts[j].Says?
    && Takes(e.flow.value, s, e.vals, acts[j].input, acts[j].cars, acts[j].now)
    && Holds(s, e.vals, acts[j].input, acts[j].cars, w)
    && SameOn(e.vals, w, About(s) - Keys(s))
  }

  ghost predicate WasSaid(d: Draft, acts: seq<Act>, s: Step, w: Values) { exists j: nat, e: Draft :: SaidAt(d, acts, j, e, s, w) }

  /** Step `s` of the first draft is still answered the same way. */
  ghost predicate StillStands(d: Draft, r: Draft, s: Step) {
    d.history != [] && s in Front(d.history) && d.flow == r.flow && SameOn(d.vals, r.vals, About(s))
  }

  lemma ChatPrefix(d: Draft, acts: seq<Act>, j: nat, e: Draft)
    requires acts != [] && Do(d, acts[0]).Asking? && AskedBefore(Do(d, acts[0]).draft, acts[1..], j, e)
    ensures AskedBefore(d, acts, j + 1, e)
  {
    assert acts[..j + 1][1..] == acts[1..][..j];
  }

  /** The act accepts an answer to `s`, and `r` holds it. */
  ghost predicate Gives(d: Draft, act: Act, s: Step, r: Draft) {
    && act.Says? && d.step == Some(s) && Settles(act.input) && Accepts(d, act.input, act.cars, act.now).Some?
    && r.vals == d.vals + Accepts(d, act.input, act.cars, act.now).value
  }

  /** What one act does to the answers that stand after it. */
  lemma ActKeepsOrGives(d: Draft, fixed: set<Key>, act: Act, s: Step, r: Draft)
    requires Good(d, fixed) && Do(d, act) == Asking(r) && r.history != [] && s in Front(r.history)
    ensures StillStands(d, r, s) || Gives(d, act, s, r)
  {
    match act
    case Says(input, cars, now) => SaysKeepsOrGives(d, fixed, input, cars, now, s, r);
    case GoesBack(idem, driver, cars) => BackKeeps(d, fixed, idem, driver, cars, s, r);
  }

  lemma SaysKeepsOrGives(d: Draft, fixed: set<Key>, input: Input, cars: seq<Car>, now: int, s: Step, r: Draft)
    requires Good(d, fixed) && Do(d, Says(input, cars, now)) == Asking(r) && r.history != [] && s in Front(r.history)
    ensures StillStands(d, r, s) || Gives(d, Says(input, cars, now), s, r)
  {
    var p := Accepts(d, input, cars, now);
    if p.Some? {
      if Settles(input) {
        AnswerProgress(d, fixed, input, cars, now);
        AcceptedKeys(d, input, cars, now);
        AnswerKeeps(d, fixed, p.value, s, r);
      } else {
        ToggleStays(d, fixed, input.international, cars, now);
        ToggleSetsTheKind(d, input.international, cars, now);
        ToggleKeeps(d, fixed, input.international, s);
      }
    }
  }

  lemma AskedIsEarlier(d: Draft, fixed: set<Key>, s: Step)
    requires Good(d, fixed) && s in Front(d.history)
    ensures 0 <= Rank(d.flow.value, s) < Rank(d.flow.value, d.step.value)
  {
    var i :| 0 <= i < |Front(d.history)| && Front(d.history)[i] == s;
    assert RisingAt(d.flow.value, Front(d.history), i);
  }

  lemma AnswerKeeps(d: Draft, fixed: set<Key>, p: Values, s: Step, r: Draft)
    requires Good(d, fixed) && r.history != [] && Front(r.history) == d.history && s in d.history
    requires r.flow == d.flow && r.vals == d.vals + p && p.Keys <= Keys(d.step.value) + {FlightType}
    ensures StillStands(d, r, s) || d.step == Some(s)
  {
    if s in Front(d.history) {
      AskedIsEarlier(d, fixed, s);
      AboutIsSettled(d.flow.value, s, d.step.value);
    } else {
      assert d.history == Front(d.history) + [d.step.value];
    }
  }

  lemma ToggleKeeps(d: Draft, fixed: set<Key>, international: bool, s: Step)
    requires Good(d, fixed) && d.step == Some(AskPickup) && s in Front(d.history)
    ensures StillStands(d, d.(vals := d.vals[FlightType := KindOf(international)]), s)
  {
    AskedIsEarlier(d, fixed, s);
    AboutIsSettled(d.flow.value, s, d.step.value);
  }

  lemma BackKeeps(d: Draft, fixed: set<Key>, idem: string, driver: bool, cars: seq<Car>, s: Step, r: Draft)
    requires Good(d, fixed) && Back(d, idem, driver, cars) == Asking(r) && r.history != [] && s in Front(r.history)
    ensures StillStands(d, r, s)
  {
    if |d.history| < 2 {
      FirstQuestionStandsAlone(d, idem, driver, cars);
    } else if NoChoice(d, cars) {
      NothingBeforeCar(d, fixed);
      BackWithoutChoice(d, fixed, idem, driver, cars);
    } else {
      BackWithChoice(d, fixed, idem, driver, cars);
      RewoundKeeps(d, fixed, s);
    }
  }

  lemma RewoundKeeps(d: Draft, fixed: set<Key>, s: Step)
    requires Good(d, fixed) && |d.history| >= 2 && Good(Rewound(d), fixed) && s in Front(Rewound(d).history)
    ensures StillStands(d, Rewound(d), s)
  {
    var r := Rewound(d);
    AskedIsEarlier(r, fixed, s);
    AboutIsSettled(d.flow.value, s, Previous(d));
    assert Front(r.history) <= Front(d.history);
  }

  lemma FirstQuestionStandsAlone(d: Draft, idem: string, driver: bool, cars: seq<Car>)
    requires |d.history| < 2 && Back(d, idem, driver, cars).Asking?
    ensures var h := Back(d, idem, driver, cars).draft.history; h != [] ==> Front(h) == []
  {
  }

  /** Every answer standing at the end of a chat stands from its beginning or was given in it. */
  lemma {:induction false} StandsOrSaid(d: Draft, fixed: set<Key>, acts: seq<Act>, s: Step, r: Draft)
    requires Good(d, fixed) && Chat(d, acts) == Asking(r) && r.history != [] && s in Front(r.history)
    ensures StillStands(d, r, s) || WasSaid(d, acts, s, r.vals)
    decreases |acts|
  {
    if acts != [] {
      var d1 := Do(d, acts[0]).draft;
      DoGood(d, fixed, acts[0]);
      var fixed' :| Good(d1, fixed');
      StandsOrSaid(d1, fixed', acts[1..], s, r);
      if StillStands(d1, r, s) {
        FirstActKeepsOrSays(d, fixed, acts, s, d1, r);
      } else {
        SaidLater(d, acts, s, r.vals);
      }
    }
  }

  lemma SaidLater(d: Draft, acts: seq<Act>, s: Step, w: Values)
    requires acts != [] && Do(d, acts[0]).Asking? && WasSaid(Do(d, acts[0]).draft, acts[1..], s, w)
    ensures WasSaid(d, acts, s, w)
  {
    var d1 := Do(d, acts[0]).draft;
    var j: nat, e :| SaidAt(d1, acts[1..], j, e, s, w);
    ChatPrefix(d, acts, j, e);
    assert SaidAt(d, acts, j + 1, e, s, w);
  }

  lemma FirstActKeepsOrSays(d: Draft, fixed: set<Key>, acts: seq<Act>, s: Step, d1: Draft, r: Draft)
    requires Good(d, fixed) && acts != [] && Do(d, acts[0]) == Asking(d1) && StillStands(d1, r, s)
    ensures StillStands(d, r, s) || WasSaid(d, acts, s, r.vals)
  {
    ActKeepsOrGives(d, fixed, acts[0], s, d1);
    if StillStands(d, d1, s) {
      assert SameOn(d.vals, r.vals, About(s));
    } else {
      FirstActSays(d, fixed, acts, s, r);
    }
  }

  lemma FirstActSays(d: Draft, fixed: set<Key>, acts: seq<Act>, s: Step, r: Draft)
    requires Good(d, fixed) && acts != [] && acts[0].Says? && Settles(acts[0].input) && d.step == Some(s)
    requires Accepts(d, acts[0].input, acts[0].cars, acts[0].now).Some?
    requires SameOn(d.vals + Accepts(d, acts[0].input, acts[0].cars, acts[0].now).value, r.vals, About(s))
    ensures SaidAt(d, acts, 0, d, s, r.vals)
  {
    var act := acts[0];
    var w := d.vals + Accepts(d, act.input, act.cars, act.now).value;
    AskedStepIsBlank(d, fixed);
    AcceptsExactly(d, act.input, act.cars, act.now);
    AcceptedKeys(d, act.input, act.cars, act.now);
    StoresWhatWasSaid(d, act.input, act.cars, act.now);
    HoldsReads(s, d.vals, act.input, act.cars, w, r.vals);
    assert Chat(d, acts[..0]) == Asking(d);
    NoKindIsAbout(s);
  }

  lemma NoKindIsAbout(s: Step)
    ensures FlightType !in About(s)
  {
  }

  /**
   MAIN. At every moment of every chat, however it opened, whatever was said and however
   often the user went back: each answer that stands was given by some act of the chat,
   was within the bounds of its step, and the draft still holds exactly what was said.
   */
  lemma EveryAnswerWasGiven(o: Opening, idem: string, driver: bool, search: Option<Value>, cars: seq<Car>, acts: seq<Act>, s: Step)
    requires var first := Open(o, idem, driver, search, cars);
             first.Asking? && Chat(first.draft, acts).Asking?
             && Chat(first.draft, acts).draft.history != [] && s in Front(Chat(first.draft, acts).draft.history)
    ensures var d := Open(o, idem, driver, search, cars).draft;
            WasSaid(d, acts, s, Chat(d, acts).draft.vals)
  {
    OpenGood(o, idem, driver, search, cars);
    var d := Open(o, idem, driver, search, cars).draft;
    var fixed :| Good(d, fixed);
    StandsOrSaid(d, fixed, acts, s, Chat(d, acts).draft);
    OpensWithOneQuestion(o, idem, driver, search, cars);
  }

  lemma OpensWithOneQuestion(o: Opening, idem: string, driver: bool, search: Option<Value>, cars: seq<Car>)
    requires Open(o, idem, driver, search, cars).Asking?
    ensures |Open(o, idem, driver, search, cars).draft.history| == 1
  {
  }
}

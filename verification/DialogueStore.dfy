/** The stored draft and the calls that rewrite it, one chat. */
module DialogueStore {
  import opened Prelude
  import opened Dialogue

  /** What the user sees after a call. */
  datatype Shown = Question | Final | Gone | MainMenu | Silence

  function Picked(d: Draft, car: Car): Draft {
    d.(step := Some(AskCar), vals := d.vals[CarId := Text(car.id)][MaxSeats := Num(car.seats)])
  }

  class Conversation {
    var draft: Draft

    constructor ()
      ensures draft == Draft(None, None, [], map[])
    {
      draft := Draft(None, None, [], map[]);
    }

    /** The screen a call left behind. */
    ghost function Screen(shown: Shown): Screen
      reads this
    {
      match shown
      case Question => Asking(draft)
      case Final => Finishing(draft)
      case Gone => Ended
      case MainMenu => Menu
      case Silence => Menu
    }

    method Clear()
      modifies this
      ensures draft == Draft(None, None, [], map[])
    {
      draft := Draft(None, None, [], map[]);
    }

    /**
     Moves to the first unfilled step and asks it. The six-round guard is never
     exhausted: a question, the final action or a way out is always shown.
     */
    method Advance(cars: seq<Car>) returns (shown: Shown)
      modifies this
      ensures shown != Silence
      ensures Screen(shown) == Dialogue.Advance(old(draft), cars)
      ensures shown.Gone? ==> draft == Draft(None, None, [], map[])
      ensures shown.MainMenu? ==> draft == old(draft)
    {
      shown := Silence;
      for guard := 0 to 6
        invariant guard <= 1 && shown == Silence
        invariant guard == 0 ==> draft == old(draft)
        invariant guard == 1 ==> old(draft).flow.Some? && |cars| == 1 && draft == Picked(old(draft), cars[0])
        invariant guard == 1 ==> FirstUnfilled(old(draft).vals, Order(old(draft).flow.value)) == Some(AskCar)
      {
        if draft.flow.None? { shown := MainMenu; break; }
        var step := FirstUnfilled(draft.vals, Order(draft.flow.value));
        if step.None? { shown := Final; break; }
        NextIsUnfilled(draft.vals, Order(draft.flow.value));
        var asked := draft.history;
        draft := draft.(step := step, history := Push(asked, step.value));
        if step.value != AskCar || |cars| > 1 { shown := Question; break; }
        if |cars| == 0 {
          Clear();
          shown := Gone;
          break;
        }
        // Answered without the user: not a step «Назад» should return to.
        draft := draft.(vals := draft.vals[CarId := Text(cars[0].id)][MaxSeats := Num(cars[0].seats)], history := asked);
      }
    }

    method Start(flow: Flow, preset: Values, idem: string, driver: bool, cars: seq<Car>) returns (shown: Shown)
      modifies this
      ensures var search := if Search in old(draft).vals then Some(old(draft).vals[Search]) else None;
              Screen(shown) == Dialogue.Start(flow, preset, idem, driver, search, cars)
      ensures shown != Silence && shown != MainMenu && (shown.Gone? ==> draft == Draft(None, None, [], map[]))
    {
      var role := if flow == Airport then map[AsDriver := Flag(driver)] else map[];
      var kept := if Search in draft.vals then map[Search := draft.vals[Search]] else map[];
      draft := Draft(Some(flow), None, [], map[Idem := Text(idem)] + role + preset + kept);
      shown := Advance(cars);
    }

    method Back(idem: string, driver: bool, cars: seq<Car>) returns (shown: Shown)
      modifies this
      ensures Screen(shown) == Dialogue.Back(old(draft), idem, driver, cars)
      ensures shown != Silence && (shown.Gone? ==> draft == Draft(None, None, [], map[]))
    {
      var history := draft.history;
      if history != [] { history := history[..|history| - 1]; }
      if history == [] {
        if AirportId in draft.vals && draft.flow != Some(Airport) {
          shown := Start(Airport, map[], idem, driver, cars);
        } else {
          Clear();
          shown := Gone;
        }
      } else {
        var prev := history[|history| - 1];
        history := history[..|history| - 1];
        assert history == draft.history[..|draft.history| - 2];
        draft := draft.(vals := draft.vals - Keys(prev), history := history);
        shown := Advance(cars);
      }
    }

    /** A typed or tapped answer: refused without a trace, or written and moved on. */
    method OnInput(input: Input, cars: seq<Car>, now: int) returns (accepted: bool, shown: Shown)
      modifies this
      ensures accepted == Accepts(old(draft), input, cars, now).Some?
      ensures !accepted ==> draft == old(draft)
      ensures accepted ==> Screen(shown) == Answer(old(draft), Accepts(old(draft), input, cars, now).value, cars) && shown != Silence
    {
      var patch := Accepts(draft, input, cars, now);
      if patch.None? {
        accepted, shown := false, Question;
      } else {
        draft := draft.(vals := draft.vals + patch.value);
        accepted := true;
        shown := Advance(cars);
      }
    }
  }

  lemma NextIsUnfilled(v: Values, order: seq<Step>)
    ensures FirstUnfilled(v, order).Some? ==> !Filled(v, FirstUnfilled(v, order).value)
  {
  }
}

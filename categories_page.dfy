/** The `/auth/sign-up/categories/page` screen: the category cards, the Continue button and the
    selection counter over one array of selected category ids. */
module SignUpCategoriesPage {
  import opened Selection
  import opened CategorySelection

  /** What the user can do on the screen: press a card or Continue. */
  datatype Event = ClickCategory(id: Key) | Continue

  /** `useState<string[]>([])`: nothing is selected at first. */
  function InitialSelection(): (selected: seq<Key>)
    ensures |selected| == 0
  {
    []
  }

  /** `handleContinue`: logs the selection and leaves it as it is. */
  function HandleContinue(selected: seq<Key>): (r: seq<Key>)
    ensures r == selected
  {
    selected
  }

  /** The selection after one event. */
  function Step(selected: seq<Key>, e: Event): seq<Key> {
    match e
    case ClickCategory(id) => Toggle(selected, id)  // `toggleCategory`
    case Continue => HandleContinue(selected)
  }

  /** The selection after a sequence of events. */
  function Run(selected: seq<Key>, events: seq<Event>): seq<Key>
    decreases |events|
  {
    if events == [] then selected else Run(Step(selected, events[0]), events[1..])
  }

  /** The ids of the cards pressed, in order. */
  function Clicks(events: seq<Event>): seq<Key>
    decreases |events|
  {
    if events == [] then []
    else (if events[0].ClickCategory? then [events[0].id] else []) + Clicks(events[1..])
  }

  /** Every card press is `toggleCategory` of its id, and Continue plays no part. */
  lemma {:induction false} RunIsToggles(selected: seq<Key>, events: seq<Event>)
    ensures Run(selected, events) == ToggleAll(selected, Clicks(events))
    decreases |events|
  {
    if events != [] {
      RunIsToggles(Step(selected, events[0]), events[1..]);
      if events[0].ClickCategory? {
        assert Clicks(events) == [events[0].id] + Clicks(events[1..]);
      } else {
        assert Clicks(events) == Clicks(events[1..]);
      }
    }
  }

  /** Whatever the user does, the selection holds distinct category ids, at
      most six; Continue is enabled and the counter shown exactly when it is
      not empty. */
  lemma ReachableSelectionsBounded(events: seq<Event>)
    requires Within(Clicks(events), Ids())
    ensures NoDup(Run(InitialSelection(), events))
    ensures Within(Run(InitialSelection(), events), Ids())
    ensures |Run(InitialSelection(), events)| <= 6
    ensures !ContinueDisabled(Run(InitialSelection(), events))
        <==> Counter(Run(InitialSelection(), events)).Some?
  {
    RunIsToggles(InitialSelection(), events);
    CategorySelection.ReachableSelectionsBounded(Clicks(events));
  }
}

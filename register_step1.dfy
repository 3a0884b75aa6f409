/** The `/register-step-1` screen: the company-profile form with a submit
    button that only logs the form. */
module RegisterStep1 {
  import opened CompanyForm

  /** What the user can do on the screen: change the form, or submit it. */
  datatype Event = Change(edit: Edit) | Submit

  /** `handleSubmit`: logs the form and leaves it as it is. */
  function HandleSubmit(f: Form): (r: Form)
    ensures r == f
  {
    f
  }

  /** The form after one event. */
  function Step(f: Form, e: Event): Form {
    match e
    case Change(edit) => Apply(f, edit)
    case Submit => HandleSubmit(f)
  }

  /** The form after a sequence of events. */
  function Run(f: Form, events: seq<Event>): Form
    decreases |events|
  {
    if events == [] then f else Run(Step(f, events[0]), events[1..])
  }

  /** The form changes among the events, in order. */
  function Edits(events: seq<Event>): seq<Edit>
    decreases |events|
  {
    if events == [] then []
    else (if events[0].Change? then [events[0].edit] else []) + Edits(events[1..])
  }

  /** Submits play no part: the screen's history acts on the form exactly as
      its form changes do. */
  lemma {:induction false} RunIsEdits(f: Form, events: seq<Event>)
    ensures Run(f, events) == ApplyAll(f, Edits(events))
    decreases |events|
  {
    if events != [] {
      RunIsEdits(Step(f, events[0]), events[1..]);
      if events[0].Change? {
        assert Edits(events) == [events[0].edit] + Edits(events[1..]);
      } else {
        assert Edits(events) == Edits(events[1..]);
      }
    }
  }

  /** From the initial form, whatever the user does with the screen's inputs
      and buttons, the days stay distinct weekday keys, at most seven. */
  lemma ReachableFormsBounded(events: seq<Event>)
    requires FromButtons(Edits(events))
    ensures Valid(Run(Initial(), events))
    ensures |Run(Initial(), events).diasFuncionamento| <= 7
  {
    RunIsEdits(Initial(), events);
    CompanyForm.ReachableFormsBounded(Edits(events));
  }
}

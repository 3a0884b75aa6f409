/** The `/auth/sign-up/company-profile/page` screen: the same form as
    `/register-step-1`, whose submit button moves on to the category step. */
module CompanyProfilePage {
  import opened CompanyForm

  /** The route `handleSubmit` navigates to. */
  const CategoriesRoute: string := "/auth/sign-up/categories/page"

  /** What the user can do on the screen: change the form, or submit it. */
  datatype Event = Change(edit: Edit) | Submit

  /** What an event does besides changing the form. */
  datatype Effect = Stay | Navigate(to: string)

  /** `handleSubmit`: logs the form and navigates, with no validation gate. */
  function HandleSubmit(f: Form): (r: (Form, Effect))
    ensures r.0 == f
    ensures r.1 == Navigate(CategoriesRoute)
  {
    (f, Navigate(CategoriesRoute))
  }

  /** The form after one event, and whether the screen navigates. */
  function Step(f: Form, e: Event): (r: (Form, Effect))
    ensures r.1 != Stay <==> e.Submit?
  {
    match e
    case Change(edit) => (Apply(f, edit), Stay)
    case Submit => HandleSubmit(f)
  }

  /** Submitting is allowed whatever the form holds: every form, even the blank
      one, leads to the same route. */
  lemma SubmitNotGated(f: Form, g: Form)
    ensures Step(f, Submit).1 == Step(g, Submit).1 == Navigate(CategoriesRoute)
    ensures Step(Initial(), Submit).1 == Navigate(CategoriesRoute)
  {
  }

  /** The form after a sequence of events, up to and including the first
      submit (which leaves the screen), and the navigation if there was one. */
  function Run(f: Form, events: seq<Event>): (r: (Form, Effect))
    decreases |events|
  {
    if events == [] then (f, Stay)
    else
      var (next, effect) := Step(f, events[0]);
      if effect.Navigate? then (next, effect) else Run(next, events[1..])
  }

  /** The form changes before the first submit, in order. */
  function EditsBeforeSubmit(events: seq<Event>): seq<Edit>
    decreases |events|
  {
    if events == [] || events[0].Submit? then []
    else [events[0].edit] + EditsBeforeSubmit(events[1..])
  }

  /** The screen's history acts on the form exactly as the form changes made
      before the first submit; it navigates to the category step exactly when
      it holds a submit. */
  lemma {:induction false} RunIsEdits(f: Form, events: seq<Event>)
    ensures Run(f, events).0 == ApplyAll(f, EditsBeforeSubmit(events))
    ensures Run(f, events).1 == (if Submit in events then Navigate(CategoriesRoute) else Stay)
    decreases |events|
  {
    if events != [] {
      if events[0].Submit? {
        assert Submit in events;
      } else {
        RunIsEdits(Apply(f, events[0].edit), events[1..]);
        assert events == [events[0]] + events[1..];
        assert Submit in events <==> Submit in events[1..];
      }
    }
  }

  /** From the initial form the days stay distinct weekday keys, at most seven. */
  lemma ReachableFormsBounded(events: seq<Event>)
    requires FromButtons(EditsBeforeSubmit(events))
    ensures Valid(Run(Initial(), events).0)
    ensures |Run(Initial(), events).0.diasFuncionamento| <= 7
  {
    RunIsEdits(Initial(), events);
    CompanyForm.ReachableFormsBounded(EditsBeforeSubmit(events));
  }
}

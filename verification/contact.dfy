/**
 * The contact page's form: four fields and a status that a submission
 * drives from idle to submitting, a 1.5-second timer to success, and a
 * 3-second timer back to idle with the fields cleared. Timers are
 * modelled by counting the callbacks still pending; each firing is an
 * event. While the status is not idle every input and the submit button
 * are disabled, so the browser delivers no edits or submissions then; and
 * since all four controls are `required`, the browser submits the form
 * only when none of them is empty.
 */
module Contact {

  datatype Status = Idle | Submitting | Success | Error

  datatype Field = Name | Email | Subject | Message

  datatype FormValues = FormValues(name: string, email: string, subject: string, message: string)

  /** The page state, with the number of pending success and reset timer callbacks. */
  datatype ContactState = ContactState(status: Status, values: FormValues, pendingSuccess: nat, pendingReset: nat)

  datatype Event =
    | Submit
    | SuccessTimer
    | ResetTimer
    | Input(field: Field, value: string)

  const EmptyValues: FormValues := FormValues("", "", "", "")

  const Initial: ContactState := ContactState(Idle, EmptyValues, 0, 0)

  function Get(v: FormValues, field: Field): string {
    match field
    case Name => v.name
    case Email => v.email
    case Subject => v.subject
    case Message => v.message
  }

  /** `handleInputChange`: `{...prev, [name]: value}` for the control named `field`. */
  function HandleInputChange(v: FormValues, field: Field, value: string): (w: FormValues)
    ensures Get(w, field) == value
    ensures forall g :: g != field ==> Get(w, g) == Get(v, g)
  {
    match field
    case Name => v.(name := value)
    case Email => v.(email := value)
    case Subject => v.(subject := value)
    case Message => v.(message := value)
  }

  /** `handleSubmit`: the status becomes "submitting" and the success timer is scheduled. */
  function HandleSubmit(s: ContactState): (t: ContactState)
    ensures t.status == Submitting
    ensures t.values == s.values
    ensures t.pendingSuccess == s.pendingSuccess + 1 && t.pendingReset == s.pendingReset
  {
    s.(status := Submitting, pendingSuccess := s.pendingSuccess + 1)
  }

  /** The first timer: the status becomes "success" and the reset timer is scheduled. */
  function FireSuccessTimer(s: ContactState): (t: ContactState)
    requires s.pendingSuccess > 0
    ensures t.status == Success
    ensures t.values == s.values
    ensures t.pendingSuccess + 1 == s.pendingSuccess && t.pendingReset == s.pendingReset + 1
  {
    s.(status := Success, pendingSuccess := s.pendingSuccess - 1, pendingReset := s.pendingReset + 1)
  }

  /** The second timer: back to "idle" with every field cleared. */
  function FireResetTimer(s: ContactState): (t: ContactState)
    requires s.pendingReset > 0
    ensures t.status == Idle
    ensures forall f :: Get(t.values, f) == ""
    ensures t.pendingSuccess == s.pendingSuccess && t.pendingReset + 1 == s.pendingReset
  {
    s.(status := Idle, values := EmptyValues, pendingReset := s.pendingReset - 1)
  }

  /** The controls that carry `disabled={formStatus !== "idle"}`. */
  datatype Control = FieldControl(field: Field) | SubmitButton

  predicate Disabled(s: ContactState, c: Control) {
    s.status != Idle
  }

  /** Every `required` control holds a value. */
  predicate Filled(v: FormValues) {
    forall f :: Get(v, f) != ""
  }

  /**
   * An event can happen: timers only while scheduled, edits only through
   * enabled inputs, and submissions only through the enabled button of a
   * form whose required controls are all filled in.
   */
  predicate Enabled(s: ContactState, e: Event) {
    match e
    case Submit => !Disabled(s, SubmitButton) && Filled(s.values)
    case SuccessTimer => s.pendingSuccess > 0
    case ResetTimer => s.pendingReset > 0
    case Input(f, _) => !Disabled(s, FieldControl(f))
  }

  /** One event; an event that cannot happen leaves the state as it is. */
  function Step(s: ContactState, e: Event): (t: ContactState)
    ensures !Enabled(s, e) ==> t == s
    ensures Enabled(s, e) && e.Submit? ==> t.status == Submitting && t.values == s.values
    ensures Enabled(s, e) && e.SuccessTimer? ==> t.status == Success && t.pendingReset == s.pendingReset + 1
    ensures Enabled(s, e) && e.ResetTimer? ==> t.status == Idle && t.values == EmptyValues
    ensures Enabled(s, e) && e.Input? ==> t.status == s.status && Get(t.values, e.field) == e.value
    ensures t.status == Error ==> s.status == Error
  {
    if !Enabled(s, e) then s
    else
      match e
      case Submit => HandleSubmit(s)
      case SuccessTimer => FireSuccessTimer(s)
      case ResetTimer => FireResetTimer(s)
      case Input(f, v) => s.(values := HandleInputChange(s.values, f, v))
  }

  function Run(s: ContactState, events: seq<Event>): ContactState
    decreases |events|
  {
    if |events| == 0 then s else Run(Step(s, events[0]), events[1..])
  }

  /**
   * The states the page can be in: idle with nothing scheduled, submitting
   * with the success timer pending, or success with the reset timer pending.
   */
  predicate Cycle(s: ContactState) {
    || (s.status == Idle && s.pendingSuccess == 0 && s.pendingReset == 0)
    || (s.status == Submitting && s.pendingSuccess == 1 && s.pendingReset == 0)
    || (s.status == Success && s.pendingSuccess == 0 && s.pendingReset == 1)
  }

  /** Every enabled event keeps the page on the idle, submitting, success cycle. */
  lemma StepKeepsCycle(s: ContactState, e: Event)
    requires Cycle(s)
    ensures Cycle(Step(s, e))
    ensures s.status == Idle && Filled(s.values) && e == Submit ==> Step(s, e).status == Submitting
    ensures s.status == Submitting && e == SuccessTimer ==> Step(s, e).status == Success
    ensures s.status == Success && e == ResetTimer ==> Step(s, e) == Initial
  {
  }

  /** From the first render on, the page stays on the cycle; in particular it never shows "error". */
  lemma {:induction false} RunKeepsCycle(s: ContactState, events: seq<Event>)
    requires Cycle(s)
    ensures Cycle(Run(s, events))
    ensures Run(s, events).status != Error
    decreases |events|
  {
    if |events| > 0 {
      StepKeepsCycle(s, events[0]);
      RunKeepsCycle(Step(s, events[0]), events[1..]);
    }
  }

  /** Nothing the visitor types while a message is being sent or shown as sent reaches the form. */
  lemma EditsIgnoredUnlessIdle(s: ContactState, f: Field, v: string)
    requires s.status != Idle
    ensures Step(s, Input(f, v)) == s
    ensures Step(s, Submit) == s
  {
  }

  /** The browser does not submit a form with an empty required control. */
  lemma EmptyFieldBlocksSubmit(s: ContactState, f: Field)
    requires Get(s.values, f) == ""
    ensures Step(s, Submit) == s
  {
  }

  /**
   * A full submission from the initial page: a filled form passes through
   * submitting and success, and the second timer restores the initial page;
   * a form with an empty field is never sent, so no timer runs either.
   */
  lemma SubmissionRoundTrip(values: FormValues)
    ensures Run(Initial.(values := values), [Submit, SuccessTimer, ResetTimer]) == Initial.(values := if Filled(values) then EmptyValues else values)
    ensures Filled(values) ==> Step(Initial.(values := values), Submit).status == Submitting
    ensures Filled(values) ==> Step(Step(Initial.(values := values), Submit), SuccessTimer).status == Success
  {
    var s0 := Initial.(values := values);
    var s1 := Step(s0, Submit);
    var s2 := Step(s1, SuccessTimer);
    assert Run(s0, [Submit, SuccessTimer, ResetTimer]) == Run(s1, [SuccessTimer, ResetTimer]);
    assert Run(s1, [SuccessTimer, ResetTimer]) == Run(s2, [ResetTimer]);
    assert Run(s2, [ResetTimer]) == Run(Step(s2, ResetTimer), []);
  }

  /** The submit button's text for each status. */
  function ButtonLabel(status: Status): string {
    match status
    case Idle => "Send Message"
    case Submitting => "Sending..."
    case Success => "Message Sent!"
    case Error => "Error Sending Message"
  }

  /**
   * The button reads "Send Message" exactly when it can be clicked, and on
   * the cycle it never reads "Error Sending Message".
   */
  lemma ButtonLabelShowsState(s: ContactState)
    ensures ButtonLabel(s.status) == "Send Message" <==> !Disabled(s, SubmitButton)
    ensures Cycle(s) ==> ButtonLabel(s.status) != "Error Sending Message"
  {
  }
}

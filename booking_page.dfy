/** The booking wizard page: a step counter (1 date and time, 2 details,
    3 confirmation) and the booking details gathered along the way. */
module BookingPage {

  /** A value handed on by a step: the chosen instant, or a text field of the
      details form. */
  datatype Detail = DateTime(ms: int) | Text(text: string)

  type Details = map<string, Detail>

  /** `{ ...bookingDetails, ...data }`: later keys override earlier ones. */
  function Merge(details: Details, data: Details): (r: Details)
    ensures r.Keys == details.Keys + data.Keys
    ensures forall k :: k in data ==> r[k] == data[k]
    ensures forall k :: k in details && k !in data ==> r[k] == details[k]
  {
    details + data
  }

  datatype Screen = SelectDateTimeScreen | EnterDetailsScreen | ConfirmationScreen | UnknownStep

  /** `renderStep()`. */
  function RenderStep(step: int): (s: Screen)
    ensures s == SelectDateTimeScreen <==> step == 1
    ensures s == EnterDetailsScreen <==> step == 2
    ensures s == ConfirmationScreen <==> step == 3
    ensures s == UnknownStep <==> step < 1 || step > 3
  {
    match step
    case 1 => SelectDateTimeScreen
    case 2 => EnterDetailsScreen
    case 3 => ConfirmationScreen
    case _ => UnknownStep
  }

  /** Progress marker `marker` carries the "active" class (`step >= marker`). */
  predicate ProgressActive(step: int, marker: int)
  {
    step >= marker
  }

  /** The wizard's two state fields. */
  datatype WizardState = WizardState(step: int, details: Details)

  const InitialState := WizardState(1, map[])

  /** The callbacks the screens can call. */
  datatype WizardEvent = NextStep(data: Details) | PrevStep

  /** `handleNextStep(data)` and `handlePrevStep()` on the state. */
  function Apply(s: WizardState, e: WizardEvent): WizardState
  {
    match e
    case NextStep(data) => WizardState(s.step + 1, Merge(s.details, data))
    case PrevStep => WizardState(s.step - 1, s.details)
  }

  /** A screen can call the callback it is given: the date step and the
      details step get `onNext`, only the details step gets `onBack`, and the
      confirmation gets neither. */
  predicate Offered(step: int, e: WizardEvent)
  {
    match e
    case NextStep(_) => RenderStep(step) == SelectDateTimeScreen || RenderStep(step) == EnterDetailsScreen
    case PrevStep => RenderStep(step) == EnterDetailsScreen
  }

  function Run(s: WizardState, events: seq<WizardEvent>): WizardState
    decreases |events|
  {
    if events == [] then s else Run(Apply(s, events[0]), events[1..])
  }

  predicate AllOffered(s: WizardState, events: seq<WizardEvent>)
    decreases |events|
  {
    events == [] || (Offered(s.step, events[0]) && AllOffered(Apply(s, events[0]), events[1..]))
  }

  /** Starting from step 1 and calling only the callbacks the screens are given,
      the wizard stays within steps 1 to 3, so "Unknown Step" is never shown,
      and no detail handed on is ever dropped. */
  lemma {:induction false} WizardStaysInRange(s: WizardState, events: seq<WizardEvent>)
    requires 1 <= s.step <= 3
    requires AllOffered(s, events)
    ensures 1 <= Run(s, events).step <= 3
    ensures RenderStep(Run(s, events).step) != UnknownStep
    ensures s.details.Keys <= Run(s, events).details.Keys
    decreases |events|
  {
    if events != [] {
      WizardStaysInRange(Apply(s, events[0]), events[1..]);
    }
  }

  /** On every page the wizard can reach from its initial state, the progress
      tracker agrees with the screen shown: "Select Time" is always active,
      "Details" is active exactly when the date and time screen is no longer
      shown, and "Confirm" exactly on the confirmation screen. */
  lemma ProgressMarkersSpec(events: seq<WizardEvent>)
    requires AllOffered(InitialState, events)
    ensures var step := Run(InitialState, events).step;
      && ProgressActive(step, 1)
      && (ProgressActive(step, 2) <==> RenderStep(step) != SelectDateTimeScreen)
      && (ProgressActive(step, 3) <==> RenderStep(step) == ConfirmationScreen)
  {
    WizardStaysInRange(InitialState, events);
  }

  /** The page's state. */
  class BookingWizard {
    var step: int
    var details: Details

    /** `useState(1)` and `useState({})`. */
    constructor ()
      ensures step == 1 && details == map[]
    {
      step := 1;
      details := map[];
    }

    /** `handleNextStep(data)`: merge the step's data in and move one step on. */
    method HandleNextStep(data: Details)
      modifies this
      ensures WizardState(step, details) == Apply(old(WizardState(step, details)), NextStep(data))
      ensures step == old(step) + 1 && details == Merge(old(details), data)
    {
      details := Merge(details, data);
      step := step + 1;
    }

    /** `handlePrevStep()`: move one step back, keeping the details. */
    method HandlePrevStep()
      modifies this
      ensures WizardState(step, details) == Apply(old(WizardState(step, details)), PrevStep)
      ensures step == old(step) - 1 && details == old(details)
    {
      step := step - 1;
    }

    function CurrentScreen(): Screen
      reads this
    {
      RenderStep(step)
    }
  }
}

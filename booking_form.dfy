/** The four-step booking wizard: its step table, its state (current step,
    form record, error map) with the handlers that change it, and the views
    derived from that state. */
module BookingForm {
  import opened Wrappers
  import opened JsBuiltins
  import opened EmailPattern
  import opened BookingValidation

  datatype FormStep = FormStep(id: int, title: string, description: string)

  const Steps: seq<FormStep> := [
    FormStep(1, "Service Selection", "Choose the service you'd like to book"),
    FormStep(2, "Personal Details", "Tell us about yourself"),
    FormStep(3, "Schedule", "Select your preferred date and time"),
    FormStep(4, "Confirmation", "Review and confirm your booking")
  ]

  /** `steps.length`. */
  const StepCount := 4

  /** The step table is numbered 1..StepCount in order. */
  lemma StepsNumbered()
    ensures |Steps| == StepCount
    ensures forall k | 0 <= k < |Steps| :: Steps[k].id == k + 1
  {
  }

  const BookingToastTitle := "Booking Successful!"

  /** How the stylist is shown: `stylist.split('-')[0]`, which keeps the
      space that precedes the dash in "Name - Role". */
  function StylistShown(stylist: string): string
  {
    SplitHead(stylist, '-')
  }

  /** The toast body built on a successful submit. */
  function ConfirmationText(d: FormData): string
  {
    "We've confirmed your " + d.service + " with " + StylistShown(d.stylist)
      + " on " + d.date + " at " + d.time + "."
  }

  /** For a "Name - Role" stylist entry only the name part is shown,
      up to and including the space before the dash. */
  lemma StylistShownDropsRole(name: string, role: string)
    requires '-' !in name
    ensures StylistShown(name + "-" + role) == name
  {
    var s := name + "-" + role;
    assert s[..|name|] == name && s[|name|] == '-';
    SplitHeadUnique(s, '-', name);
  }

  lemma StylistShownExample()
    ensures StylistShown("Quinn Martins - Senior Stylist") == "Quinn Martins "
  {
    assert "Quinn Martins - Senior Stylist" == "Quinn Martins " + "-" + " Senior Stylist";
    StylistShownDropsRole("Quinn Martins ", " Senior Stylist");
  }

  /** The confirmation for the bridal booking: the stylist's role is dropped,
      and the space kept before the dash leaves two spaces before "on". */
  lemma ConfirmationTextExample(d: FormData)
    requires d.service == "Bridal Experience" && d.stylist == "Quinn Martins - Senior Stylist"
    requires d.date == "2024-06-01" && d.time == "2:00 PM"
    ensures ConfirmationText(d) ==
      "We've confirmed your Bridal Experience with Quinn Martins  on 2024-06-01 at 2:00 PM."
  {
    StylistShownExample();
    ConfirmationTextParts(d, "Bridal Experience", "Quinn Martins ", "2024-06-01", "2:00 PM");
    BridalConfirmationLiteral();
  }

  /** The literal pieces of the bridal confirmation, joined. */
  lemma BridalConfirmationLiteral()
    ensures "We've confirmed your " + "Bridal Experience" + " with " + "Quinn Martins "
      + " on " + "2024-06-01" + " at " + "2:00 PM" + "."
      == "We've confirmed your Bridal Experience with Quinn Martins  on 2024-06-01 at 2:00 PM."
  {
    // Long literal concatenations are checked one piece at a time.
    assert "We've confirmed your " + "Bridal Experience" == "We've confirmed your Bridal Experience";
    assert "We've confirmed your Bridal Experience" + " with " == "We've confirmed your Bridal Experience with ";
    assert "We've confirmed your Bridal Experience with " + "Quinn Martins "
      == "We've confirmed your Bridal Experience with Quinn Martins ";
    assert "We've confirmed your Bridal Experience with Quinn Martins " + " on "
      == "We've confirmed your Bridal Experience with Quinn Martins  on ";
    assert "We've confirmed your Bridal Experience with Quinn Martins  on " + "2024-06-01"
      == "We've confirmed your Bridal Experience with Quinn Martins  on 2024-06-01";
    assert "We've confirmed your Bridal Experience with Quinn Martins  on 2024-06-01" + " at "
      == "We've confirmed your Bridal Experience with Quinn Martins  on 2024-06-01 at ";
    assert "We've confirmed your Bridal Experience with Quinn Martins  on 2024-06-01 at " + "2:00 PM"
      == "We've confirmed your Bridal Experience with Quinn Martins  on 2024-06-01 at 2:00 PM";
    assert "We've confirmed your Bridal Experience with Quinn Martins  on 2024-06-01 at 2:00 PM" + "."
      == "We've confirmed your Bridal Experience with Quinn Martins  on 2024-06-01 at 2:00 PM.";
  }

  lemma ConfirmationTextParts(d: FormData, service: string, shown: string, date: string, time: string)
    requires d.service == service && StylistShown(d.stylist) == shown
    requires d.date == date && d.time == time
    ensures ConfirmationText(d) ==
      "We've confirmed your " + service + " with " + shown + " on " + date + " at " + time + "."
  {
  }

  /** One line of the confirmation step's summary (the source's `label` prop is `caption` here). */
  datatype SummaryItem = SummaryItem(caption: string, value: string)

  /** Labels of the summary lines that are always present, in display order. */
  const SummaryLabels: seq<string> := ["Service", "Stylist", "Name", "Email", "Phone", "Date", "Time"]

  /** The summary list of the confirmation step. */
  function Summary(d: FormData): (items: seq<SummaryItem>)
    ensures |items| == if d.notes == "" then 7 else 8
    ensures forall k | 0 <= k < 7 :: items[k].caption == SummaryLabels[k]
    ensures |items| == 8 ==> items[7] == SummaryItem("Notes", d.notes)
  {
    [ SummaryItem("Service", d.service),
      SummaryItem("Stylist", StylistShown(d.stylist)),
      SummaryItem("Name", d.name),
      SummaryItem("Email", d.email),
      SummaryItem("Phone", d.phone),
      SummaryItem("Date", d.date),
      SummaryItem("Time", d.time) ]
    + (if d.notes != "" then [SummaryItem("Notes", d.notes)] else [])
  }

  /** The value of the first line with a given label. */
  function Lookup(items: seq<SummaryItem>, caption: string): Option<string>
  {
    if items == [] then None
    else if items[0].caption == caption then Some(items[0].value)
    else Lookup(items[1..], caption)
  }

  /** `Lookup` finds the first line with the label, and nothing when none has it. */
  lemma {:induction false} LookupFirst(items: seq<SummaryItem>, caption: string, k: int)
    requires 0 <= k <= |items|
    requires forall j | 0 <= j < k :: items[j].caption != caption
    requires k == |items| || items[k].caption == caption
    ensures Lookup(items, caption) == if k == |items| then None else Some(items[k].value)
  {
    if k > 0 {
      LookupFirst(items[1..], caption, k - 1);
    }
  }

  /** The label under which a field is summarised. */
  function SummaryLabel(f: Field): string
  {
    match f
    case Service => "Service"
    case Stylist => "Stylist"
    case Name => "Name"
    case Email => "Email"
    case Phone => "Phone"
    case Date => "Date"
    case Time => "Time"
    case Notes => "Notes"
  }

  /** Every field is summarised under its own label with its own value, the
      stylist without its role; notes only when they are non-empty. */
  lemma SummaryShowsEachField(d: FormData, f: Field)
    ensures Lookup(Summary(d), SummaryLabel(f)) ==
      if f == Notes && d.notes == "" then None
      else if f == Stylist then Some(StylistShown(d.stylist))
      else Some(d.Get(f))
  {
    var items := Summary(d);
    var k := match f
      case Service => 0 case Stylist => 1 case Name => 2 case Email => 3
      case Phone => 4 case Date => 5 case Time => 6 case Notes => 7;
    if f == Notes && d.notes == "" {
      LookupFirst(items, SummaryLabel(f), |items|);
    } else {
      LookupFirst(items, SummaryLabel(f), k);
    }
  }

  /** How a step marker is drawn. */
  datatype Marker = Completed | Current | Upcoming

  /** The marker of step `id` when the wizard is at step `current`. */
  function MarkerFor(id: int, current: int): Marker
  {
    if id == current then Current
    else if id < current then Completed
    else Upcoming
  }

  /** The row of step markers. */
  function Markers(current: int): (ms: seq<Marker>)
    ensures |ms| == |Steps|
  {
    seq(|Steps|, k requires 0 <= k < |Steps| => MarkerFor(Steps[k].id, current))
  }

  /** Markers before the current step are completed, the current step's is
      current, the later ones are upcoming: exactly one marker is current. */
  lemma MarkersSplitAtCurrent(current: int)
    requires 1 <= current <= StepCount
    ensures forall k | 0 <= k < current - 1 :: Markers(current)[k] == Completed
    ensures Markers(current)[current - 1] == Current
    ensures forall k | current <= k < StepCount :: Markers(current)[k] == Upcoming
    ensures forall k | 0 <= k < StepCount && Markers(current)[k] == Current :: k == current - 1
  {
  }

  /** `(currentStep - 1) / (steps.length - 1)`: the filled share of the
      progress line (the source scales it to a percentage). */
  function Progress(current: int): (r: real)
    ensures 1 <= current <= StepCount ==> 0.0 <= r <= 1.0
    ensures current == 1 ==> r == 0.0
    ensures current == StepCount ==> r == 1.0
  {
    (current - 1) as real / (|Steps| - 1) as real
  }

  /** The progress line grows strictly with every step. */
  lemma ProgressIncreases(i: int, j: int)
    requires i < j
    ensures Progress(i) < Progress(j)
  {
  }

  /** The wizard's state and its handlers. */
  class BookingWizard {
    var currentStep: int
    var formData: FormData
    var errors: map<Field, string>

    /** The step always names an entry of the step table, and the error map
        only ever holds its fields' fixed messages. */
    ghost predicate Valid()
      reads this
    {
      1 <= currentStep <= StepCount && WellFormedErrors(errors)
    }

    /** The state at mount time, and again after a successful submit. */
    ghost predicate IsInitial()
      reads this
    {
      currentStep == 1 && formData == EmptyForm && errors == map[]
    }

    constructor ()
      ensures Valid() && IsInitial()
    {
      currentStep := 1;
      formData := EmptyForm;
      errors := map[];
    }

    /** `steps[currentStep - 1]`: always in range, and it is the current step. */
    function CurrentStepInfo(): (s: FormStep)
      reads this
      requires Valid()
      ensures s in Steps && s.id == currentStep
    {
      Steps[currentStep - 1]
    }

    /** `validateStep(step)`: replaces the whole error map with the failures
        of `step` and reports whether there were none. */
    method ValidateStep(step: int) returns (isValid: bool)
      requires Valid()
      modifies this
      ensures Valid()
      ensures errors == StepErrors(step, formData)
      ensures isValid <==> errors == map[]
      ensures formData == old(formData) && currentStep == old(currentStep)
    {
      var newErrors: map<Field, string> := map[];
      isValid := true;

      if step == 1 {
        if formData.service == "" {
          newErrors := newErrors[Service := ServiceRequired];
          isValid := false;
        }
        if formData.stylist == "" {
          newErrors := newErrors[Stylist := StylistRequired];
          isValid := false;
        }
        assert !isValid ==> Service in newErrors || Stylist in newErrors;
        assert newErrors == StepErrors(1, formData) by { StepOneErrors(formData); }
      } else if step == 2 {
        if formData.name == "" {
          newErrors := newErrors[Name := NameRequired];
          isValid := false;
        }
        ghost var nameErrors := newErrors;
        assert nameErrors == if formData.name == "" then map[Name := NameRequired] else map[];
        if formData.email == "" {
          newErrors := newErrors[Email := EmailRequired];
          isValid := false;
        } else if !Matches(formData.email) {
          newErrors := newErrors[Email := EmailInvalid];
          isValid := false;
        }
        ghost var emailErrors := newErrors;
        assert emailErrors == nameErrors
          + (if formData.email == "" then map[Email := EmailRequired]
             else if !Matches(formData.email) then map[Email := EmailInvalid] else map[]);
        if formData.phone == "" {
          newErrors := newErrors[Phone := PhoneRequired];
          isValid := false;
        }
        assert newErrors == emailErrors
          + (if formData.phone == "" then map[Phone := PhoneRequired] else map[]);
        assert !isValid ==> Name in newErrors || Email in newErrors || Phone in newErrors;
        assert newErrors == StepErrors(2, formData) by { StepTwoErrors(formData); }
      } else if step == 3 {
        if formData.date == "" {
          newErrors := newErrors[Date := DateRequired];
          isValid := false;
        }
        if formData.time == "" {
          newErrors := newErrors[Time := TimeRequired];
          isValid := false;
        }
        assert !isValid ==> Date in newErrors || Time in newErrors;
        assert newErrors == StepErrors(3, formData) by { StepThreeErrors(formData); }
      } else {
        OtherStepsAlwaysValid(step, formData);
      }

      StepErrorsWellFormed(step, formData);
      errors := newErrors;
    }

    /** `nextStep`: validate the current step; on success move forward one
        step unless already at the last. */
    method NextStep()
      requires Valid()
      modifies this
      ensures Valid()
      ensures formData == old(formData)
      ensures errors == StepErrors(old(currentStep), formData)
      ensures currentStep ==
        if StepComplete(old(currentStep), formData) && old(currentStep) < StepCount
        then old(currentStep) + 1 else old(currentStep)
    {
      var ok := ValidateStep(currentStep);
      ValidIffComplete(currentStep, formData);
      if ok {
        if currentStep < |Steps| {
          currentStep := currentStep + 1;
        }
      }
    }

    /** `prevStep`: move back one step unless at the first; nothing else changes. */
    method PrevStep()
      requires Valid()
      modifies this
      ensures Valid()
      ensures currentStep == if old(currentStep) > 1 then old(currentStep) - 1 else old(currentStep)
      ensures formData == old(formData) && errors == old(errors)
    {
      if currentStep > 1 {
        currentStep := currentStep - 1;
      }
    }

    /** `handleChange`: store the edited value and drop that field's error,
        whatever the new value is. */
    method HandleChange(name: Field, value: string)
      requires Valid()
      modifies this
      ensures Valid()
      ensures formData == old(formData).With(name, value)
      ensures errors == old(errors) - {name}
      ensures currentStep == old(currentStep)
    {
      formData := formData.With(name, value);
      if name in errors && errors[name] != "" {
        errors := errors - {name};
      }
    }

    /** The service card's click handler: the same update for `service`. */
    method SelectService(service: string)
      requires Valid()
      modifies this
      ensures Valid()
      ensures formData == old(formData).(service := service)
      ensures errors == old(errors) - {Service}
      ensures currentStep == old(currentStep)
    {
      formData := formData.(service := service);
      if Service in errors && errors[Service] != "" {
        errors := errors - {Service};
      }
    }

    /** `handleSubmit`: validate the current step; on success emit the
        confirmation toast and return to the initial state, otherwise only
        the error map changes. */
    method HandleSubmit() returns (toast: Option<Toast>)
      requires Valid()
      modifies this
      ensures Valid()
      ensures StepComplete(old(currentStep), old(formData)) ==>
        && toast == Some(Toast(BookingToastTitle, ConfirmationText(old(formData))))
        && IsInitial()
      ensures !StepComplete(old(currentStep), old(formData)) ==>
        && toast == None
        && errors == StepErrors(old(currentStep), old(formData)) && errors != map[]
        && formData == old(formData) && currentStep == old(currentStep)
    {
      var ok := ValidateStep(currentStep);
      ValidIffComplete(currentStep, formData);
      if ok {
        toast := Some(Toast(BookingToastTitle, ConfirmationText(formData)));
        formData := EmptyForm;
        currentStep := 1;
      } else {
        toast := None;
      }
    }
  }

  // Scenarios driven through the handlers' contracts alone.

  /** Continuing from a fresh wizard is refused with both step-1 messages. */
  method ScenarioEmptyFirstStep() returns (w: BookingWizard)
    ensures w.Valid() && w.currentStep == 1 && w.formData == EmptyForm
    ensures w.errors == map[Service := ServiceRequired, Stylist := StylistRequired]
  {
    w := new BookingWizard();
    w.NextStep();
    StepErrorsExact(1, EmptyForm, Service);
    StepErrorsExact(1, EmptyForm, Stylist);
    assert w.errors.Keys == {Service, Stylist};
  }

  /** Choosing a service and a stylist at step 1 lets the wizard advance with
      no errors left, whatever errors it held before (a step-2 error kept by
      going back is replaced too, since validation rebuilds the whole map). */
  method ScenarioChooseService(w: BookingWizard)
    requires w.Valid() && w.currentStep == 1
    modifies w
    ensures w.Valid() && w.currentStep == 2 && w.errors == map[]
  {
    w.SelectService("Signature Precision Cut");
    w.HandleChange(Stylist, "Alex Thompson - Master Stylist");
    w.NextStep();
    ValidIffComplete(1, w.formData);
  }

  /** A malformed email holds the wizard at step 2 with only the "invalid" message. */
  method ScenarioBadEmail(w: BookingWizard)
    requires w.Valid() && w.currentStep == 2
    modifies w
    ensures w.Valid() && w.currentStep == 2 && w.errors == map[Email := EmailInvalid]
  {
    w.HandleChange(Name, "Jane Doe");
    w.HandleChange(Email, "not-an-email");
    w.HandleChange(Phone, "555-1234");
    w.NextStep();
    ExampleWithoutAt();
    var d := w.formData;
    assert d.name == "Jane Doe" && d.email == "not-an-email" && d.phone == "555-1234";
    StepErrorsExact(2, d, Name);
    StepErrorsExact(2, d, Email);
    StepErrorsExact(2, d, Phone);
    assert w.errors.Keys == {Email};
  }

  /** Submitting the completed bridal booking emits its confirmation and resets the wizard. */
  method ScenarioSubmitBridal(w: BookingWizard)
    requires w.Valid() && w.currentStep == 4
    requires w.formData.service == "Bridal Experience"
    requires w.formData.stylist == "Quinn Martins - Senior Stylist"
    requires w.formData.date == "2024-06-01" && w.formData.time == "2:00 PM"
    modifies w
    ensures w.Valid() && w.IsInitial()
  {
    var before := w.formData;
    var toast := w.HandleSubmit();
    ConfirmationTextExample(before);
    assert toast == Some(Toast(BookingToastTitle,
      "We've confirmed your Bridal Experience with Quinn Martins  on 2024-06-01 at 2:00 PM."));
  }
}

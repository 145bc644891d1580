/** The booking wizard's form record and its per-step validation rules
    (the rule table that `validateStep` applies). */
module BookingValidation {
  import opened Wrappers
  import opened EmailPattern

  /** The eight keys of the form record, used as input names and error keys. */
  datatype Field = Service | Stylist | Name | Email | Phone | Date | Time | Notes

  /** The form record; every field starts as the empty string. */
  datatype FormData = FormData(
    service: string, stylist: string, name: string, email: string,
    phone: string, date: string, time: string, notes: string)
  {
    function Get(f: Field): string
    {
      match f
      case Service => service
      case Stylist => stylist
      case Name => name
      case Email => email
      case Phone => phone
      case Date => date
      case Time => time
      case Notes => notes
    }

    /** `{ ...this, [f]: v }`: the record with field `f` replaced. */
    function With(f: Field, v: string): (r: FormData)
      ensures r.Get(f) == v
      ensures forall g :: g != f ==> r.Get(g) == Get(g)
    {
      match f
      case Service => this.(service := v)
      case Stylist => this.(stylist := v)
      case Name => this.(name := v)
      case Email => this.(email := v)
      case Phone => this.(phone := v)
      case Date => this.(date := v)
      case Time => this.(time := v)
      case Notes => this.(notes := v)
    }
  }

  const EmptyForm := FormData("", "", "", "", "", "", "", "")

  const ServiceRequired := "Please select a service"
  const StylistRequired := "Please select a stylist"
  const NameRequired := "Name is required"
  const EmailRequired := "Email is required"
  const EmailInvalid := "Email address is invalid"
  const PhoneRequired := "Phone number is required"
  const DateRequired := "Please select a date"
  const TimeRequired := "Please select a time"

  /** The fields a step checks; steps other than 1, 2 and 3 check none. */
  function RequiredFields(step: int): set<Field>
  {
    if step == 1 then {Service, Stylist}
    else if step == 2 then {Name, Email, Phone}
    else if step == 3 then {Date, Time}
    else {}
  }

  /** The message for a required field left empty (`notes` is never required). */
  function RequiredMessage(f: Field): string
    requires f != Notes
  {
    match f
    case Service => ServiceRequired
    case Stylist => StylistRequired
    case Name => NameRequired
    case Email => EmailRequired
    case Phone => PhoneRequired
    case Date => DateRequired
    case Time => TimeRequired
  }

  /** The rule for one required field: empty (the test is `!value`, so no
      trimming) gives its "required" message; the email, once non-empty, must
      also match the pattern. */
  function FieldError(f: Field, d: FormData): Option<string>
    requires f != Notes
  {
    if d.Get(f) == "" then Some(RequiredMessage(f))
    else if f == Email && !Matches(d.email) then Some(EmailInvalid)
    else None
  }

  /** The error map `validateStep(step)` installs: one entry per failing
      required field of `step`, and nothing else. */
  function StepErrors(step: int, d: FormData): map<Field, string>
  {
    map f | f in RequiredFields(step) && FieldError(f, d).Some? :: FieldError(f, d).value
  }

  /** Every message a field can carry. */
  function MessagesFor(f: Field): set<string>
  {
    if f == Notes then {}
    else if f == Email then {EmailRequired, EmailInvalid}
    else {RequiredMessage(f)}
  }

  /** Error maps whose every entry is one of its field's fixed messages. */
  predicate WellFormedErrors(errors: map<Field, string>)
  {
    forall f | f in errors :: errors[f] in MessagesFor(f)
  }

  /** What it means for a step to pass, field by field. */
  predicate StepComplete(step: int, d: FormData)
  {
    && (step == 1 ==> d.service != "" && d.stylist != "")
    && (step == 2 ==> d.name != "" && d.email != "" && Matches(d.email) && d.phone != "")
    && (step == 3 ==> d.date != "" && d.time != "")
  }

  /** `validateStep` returns true exactly when the step's fields are all
      filled in (and the email well formed), and then the map is empty. */
  lemma ValidIffComplete(step: int, d: FormData)
    ensures StepErrors(step, d) == map[] <==> StepComplete(step, d)
  {
    var e := StepErrors(step, d);
    if StepComplete(step, d) {
      forall f | f in RequiredFields(step) ensures FieldError(f, d).None? { }
      assert e.Keys == {};
    } else {
      var f: Field :| f in RequiredFields(step) && FieldError(f, d).Some?;
      assert f in e;
    }
  }

  /** The map holds exactly the failing required fields of the step, each
      with its fixed message; `notes` and other steps' fields never appear. */
  lemma StepErrorsExact(step: int, d: FormData, f: Field)
    ensures f in StepErrors(step, d) <==>
      f in RequiredFields(step) && (d.Get(f) == "" || (f == Email && !Matches(d.email)))
    ensures f in StepErrors(step, d) && d.Get(f) == "" ==> StepErrors(step, d)[f] == RequiredMessage(f)
    ensures f in StepErrors(step, d) && d.Get(f) != "" ==> StepErrors(step, d)[f] == EmailInvalid
  {
  }

  /** Steps outside 1..3 (the confirmation step) always pass. */
  lemma OtherStepsAlwaysValid(step: int, d: FormData)
    requires step < 1 || step > 3
    ensures StepErrors(step, d) == map[]
  {
    assert StepErrors(step, d).Keys == {};
  }

  /** An empty email is reported as required and the pattern is not
      consulted; a non-empty one that fails the pattern is reported as
      invalid; the two messages never stand together. */
  lemma EmailErrorCases(d: FormData)
    ensures d.email == "" ==> Email in StepErrors(2, d) && StepErrors(2, d)[Email] == EmailRequired
    ensures d.email != "" && !Matches(d.email) ==> Email in StepErrors(2, d) && StepErrors(2, d)[Email] == EmailInvalid
    ensures Email !in StepErrors(2, d) <==> d.email != "" && Matches(d.email)
  {
  }

  /** Whitespace counts as content for the emptiness checks; a whitespace-only
      email therefore gets the "invalid" message, not the "required" one. */
  lemma WhitespaceCountsAsFilled(d: FormData)
    requires d.name == " " && d.email == " "
    ensures Name !in StepErrors(2, d)
    ensures StepErrors(2, d)[Email] == EmailInvalid
  {
    WhitespaceNeverMatches(d.email);
  }

  // The error map of each checking step in closed form, as `validateStep`
  // assembles it one field at a time.

  lemma StepOneErrors(d: FormData)
    ensures StepErrors(1, d) ==
      (if d.service == "" then map[Service := ServiceRequired] else map[])
      + (if d.stylist == "" then map[Stylist := StylistRequired] else map[])
  {
  }

  lemma StepTwoErrors(d: FormData)
    ensures StepErrors(2, d) ==
      (if d.name == "" then map[Name := NameRequired] else map[])
      + (if d.email == "" then map[Email := EmailRequired]
         else if !Matches(d.email) then map[Email := EmailInvalid] else map[])
      + (if d.phone == "" then map[Phone := PhoneRequired] else map[])
  {
  }

  lemma StepThreeErrors(d: FormData)
    ensures StepErrors(3, d) ==
      (if d.date == "" then map[Date := DateRequired] else map[])
      + (if d.time == "" then map[Time := TimeRequired] else map[])
  {
  }

  /** Validation only ever produces the fixed messages. */
  lemma StepErrorsWellFormed(step: int, d: FormData)
    ensures WellFormedErrors(StepErrors(step, d))
  {
  }
}

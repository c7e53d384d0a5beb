/**
 * The job-application form of the careers page: per-field validation, the
 * input handler, opening and closing the application modal, and the
 * submission that relays the application through a transactional-email
 * service.
 *
 * The e-mail service call is asynchronous. It is modelled as two events:
 * HandleSubmit starts the send and returns the request it makes, and
 * SendSettled delivers the outcome, which the environment chooses. The
 * 3000 ms timer that closes the modal after a success is a counter of
 * scheduled closes, fired by CloseTimerFires.
 */
module Hire {
  import opened Wrappers
  import opened Text
  import opened Patterns
  import opened Numbers

  datatype HireField = Name | Email | Phone | Experience | Motivation | Position

  /** The `formData` record: six text fields. */
  datatype Application = Application(
    name: string, email: string, phone: string,
    experience: string, motivation: string, position: string)
  {
    function Get(f: HireField): string {
      match f
      case Name => name
      case Email => email
      case Phone => phone
      case Experience => experience
      case Motivation => motivation
      case Position => position
    }

    /** `{ ...formData, [f]: v }` */
    function With(f: HireField, v: string): (r: Application)
      ensures r.Get(f) == v
      ensures forall g :: g != f ==> r.Get(g) == Get(g)
    {
      match f
      case Name => this.(name := v)
      case Email => this.(email := v)
      case Phone => this.(phone := v)
      case Experience => this.(experience := v)
      case Motivation => this.(motivation := v)
      case Position => this.(position := v)
    }
  }

  const EmptyApplication := Application("", "", "", "", "", "")

  const MinMotivationLength := 50

  // ---------------------------------------------------------------------------
  // Per-field rules of validateForm

  function NameError(s: string): Option<string> {
    if Trim(s) == [] then Some("Full name is required") else None
  }

  function EmailError(s: string): Option<string> {
    if Trim(s) == [] then Some("Email is required")
    else if !MatchesEmailPattern(s) then Some("Please enter a valid email address")
    else None
  }

  function PhoneError(s: string): Option<string> {
    if Trim(s) == [] then Some("Phone number is required")
    else if !MatchesPhonePattern(RemoveWhitespace(s)) then Some("Please enter a valid phone number")
    else None
  }

  /** `!formData.experience` is true only of the empty string; `formData.experience < 0`
      converts the string to a number. */
  function ExperienceError(s: string): Option<string> {
    if s == "" then Some("Experience is required")
    else if IsNegativeNumber(s) then Some("Experience cannot be negative")
    else None
  }

  function MotivationError(s: string): Option<string> {
    if Trim(s) == [] then Some("Please tell us why you want to join")
    else if Utf16Length(Trim(s)) < MinMotivationLength then Some("Please provide at least 50 characters")
    else None
  }

  /** The rule for one field; the position is never validated. */
  function FieldError(a: Application, f: HireField): Option<string> {
    match f
    case Name => NameError(a.name)
    case Email => EmailError(a.email)
    case Phone => PhoneError(a.phone)
    case Experience => ExperienceError(a.experience)
    case Motivation => MotivationError(a.motivation)
    case Position => None
  }

  /** `errors.f = message` when a rule produced a message. */
  function Record(m: map<HireField, string>, f: HireField, e: Option<string>): map<HireField, string> {
    if e.Some? then m[f := e.value] else m
  }

  /** The error map validateForm computes for `a`, in validateForm's order. */
  function HireErrors(a: Application): map<HireField, string> {
    ErrorMap(NameError(a.name), EmailError(a.email), PhoneError(a.phone),
             ExperienceError(a.experience), MotivationError(a.motivation))
  }

  function ErrorMap(name: Option<string>, email: Option<string>, phone: Option<string>,
                    experience: Option<string>, motivation: Option<string>): map<HireField, string>
  {
    var afterName := Record(map[], Name, name);
    var afterEmail := Record(afterName, Email, email);
    var afterPhone := Record(afterEmail, Phone, phone);
    var afterExperience := Record(afterPhone, Experience, experience);
    Record(afterExperience, Motivation, motivation)
  }

  /** Builds the error map field by field, as validateForm fills its local `errors`. */
  method CollectErrors(a: Application) returns (errors: map<HireField, string>)
    ensures errors == HireErrors(a)
  {
    errors := map[];
    var name := NameError(a.name);
    if name.Some? {
      errors := errors[Name := name.value];
    }
    ghost var afterName := errors;
    assert afterName == Record(map[], Name, name);
    var email := EmailError(a.email);
    if email.Some? {
      errors := errors[Email := email.value];
    }
    ghost var afterEmail := errors;
    assert afterEmail == Record(afterName, Email, email);
    var phone := PhoneError(a.phone);
    if phone.Some? {
      errors := errors[Phone := phone.value];
    }
    ghost var afterPhone := errors;
    assert afterPhone == Record(afterEmail, Phone, phone);
    var experience := ExperienceError(a.experience);
    if experience.Some? {
      errors := errors[Experience := experience.value];
    }
    ghost var afterExperience := errors;
    assert afterExperience == Record(afterPhone, Experience, experience);
    var motivation := MotivationError(a.motivation);
    if motivation.Some? {
      errors := errors[Motivation := motivation.value];
    }
    assert errors == Record(afterExperience, Motivation, motivation);
    assert errors == ErrorMap(name, email, phone, experience, motivation);
  }

  /** Each field has an entry exactly when its rule fails, holding that rule's message. */
  lemma HireErrorsEntries(a: Application, f: HireField)
    ensures f in HireErrors(a) <==> FieldError(a, f).Some?
    ensures f in HireErrors(a) ==> HireErrors(a)[f] == FieldError(a, f).value
  {
    ErrorMapEntries(NameError(a.name), EmailError(a.email), PhoneError(a.phone),
                    ExperienceError(a.experience), MotivationError(a.motivation), f);
  }

  lemma ErrorMapEntries(name: Option<string>, email: Option<string>, phone: Option<string>,
                        experience: Option<string>, motivation: Option<string>, f: HireField)
    ensures var e := match f
                     case Name => name case Email => email case Phone => phone
                     case Experience => experience case Motivation => motivation case Position => None;
            && (f in ErrorMap(name, email, phone, experience, motivation) <==> e.Some?)
            && (e.Some? ==> ErrorMap(name, email, phone, experience, motivation)[f] == e.value)
  {
  }

  // ---------------------------------------------------------------------------
  // What the rules mean

  /** A name error is recorded exactly when the name is blank. */
  lemma NameRule(s: string)
    ensures NameError(s).Some? <==> AllWhitespace(s)
  {
    TrimEmptyIff(s);
  }

  /** A blank e-mail is "required"; any other e-mail is an error exactly when
      the untrimmed text is not L@A.B. */
  lemma EmailRule(s: string)
    ensures AllWhitespace(s) ==> EmailError(s) == Some("Email is required")
    ensures !AllWhitespace(s) ==> (EmailError(s) == None <==> IsAddressShape(s))
  {
    TrimEmptyIff(s);
    EmailPatternIsAddressShape(s);
  }

  /** A blank phone is "required"; any other phone is valid exactly when, with its
      whitespace removed, it is an optional '+', a digit 1-9 and up to fifteen digits. */
  lemma PhoneRule(s: string)
    ensures AllWhitespace(s) ==> PhoneError(s) == Some("Phone number is required")
    ensures !AllWhitespace(s) ==> (PhoneError(s) == None <==> MatchesPhonePattern(RemoveWhitespace(s)))
  {
    TrimEmptyIff(s);
  }

  /** The phone field's own placeholder is refused: only whitespace is removed
      before the pattern is applied, and the parentheses and the dash remain. */
  lemma PlaceholderPhoneRejected()
    ensures PhoneError("+1 (555) 123-4567") == Some("Please enter a valid phone number")
  {
    var s := "+1 (555) 123-4567";
    assert s[0] == '+' && s[3] == '(';
    assert !AllWhitespace(s) by {
      assert !IsWhitespace(s[0]);
    }
    TrimEmptyIff(s);
    RemoveWhitespaceKeeps(s, 3);
    ContainsNonPhoneChar(RemoveWhitespace(s), '(');
  }

  /** Experience is an error exactly when it is empty or reads as a negative number. */
  lemma ExperienceRule(n: int)
    ensures ExperienceError(Decimal(n)).Some? <==> n < 0
  {
    NegativeDecimalIff(n);
  }

  /** "0" is accepted, and so is text that is not a number: NaN < 0 is false. */
  lemma ExperienceAcceptsZeroAndText()
    ensures ExperienceError("0") == None
    ensures ExperienceError("abc") == None
  {
    NegativeDecimalIff(0);
    assert Decimal(0) == "0";
    assert !IsNegativeNumber("abc") by {
      assert "abc" == Trim("abc") by {
        TrimNoWhitespace("abc");
      }
      assert ParseInteger("abc") == None by {
        assert !IsDigit("abc"[0]);
      }
    }
  }

  /** Motivation is an error exactly when its trimmed text is shorter than fifty
      UTF-16 code units (blank text included). */
  lemma MotivationRule(s: string)
    ensures MotivationError(s).Some? <==> Utf16Length(Trim(s)) < MinMotivationLength
  {
  }

  /** Padding does not count: fifty characters of the Basic Multilingual Plane
      between any amount of whitespace pass, forty-nine do not. */
  lemma MotivationThreshold(pre: string, core: string, post: string)
    requires AllWhitespace(pre) && AllWhitespace(post) && Unpadded(core) && InBasicPlane(core)
    ensures MotivationError(pre + core + post) == None <==> |core| >= 50
  {
    TrimPadded(pre, core, post);
    Utf16LengthBasicPlane(core);
  }

  /** validateForm accepts exactly when every field rule passes. */
  lemma ValidIffEveryRulePasses(a: Application)
    ensures HireErrors(a) == map[] <==>
      (NameError(a.name) == None && EmailError(a.email) == None && PhoneError(a.phone) == None
       && ExperienceError(a.experience) == None && MotivationError(a.motivation) == None)
  {
    HireErrorsEntries(a, Name);
    HireErrorsEntries(a, Email);
    HireErrorsEntries(a, Phone);
    HireErrorsEntries(a, Experience);
    HireErrorsEntries(a, Motivation);
    HireErrorsEntries(a, Position);
    if HireErrors(a).Keys == {} {
      assert HireErrors(a) == map[];
    }
  }

  /** The position is never validated: whatever it holds, the errors are the same. */
  lemma PositionNeverValidated(a: Application, p: string)
    ensures Position !in HireErrors(a)
    ensures HireErrors(a.With(Position, p)) == HireErrors(a)
  {
    var b := a.With(Position, p);
    forall f ensures FieldError(b, f) == FieldError(a, f) {
      if f != Position { assert b.Get(f) == a.Get(f); }
    }
  }

  // ---------------------------------------------------------------------------
  // Submission

  /** `submitStatus`: '' , 'success' or 'error'. */
  datatype SubmitStatus = Idle | Success | Failed

  /** The settled result of the e-mail service call: resolved with a status
      text, or thrown. */
  datatype SendOutcome = Resolved(text: string) | Threw

  /** The template parameters sent with an application. The date and time are
      locale- and clock-dependent text supplied by the caller. */
  datatype TemplateParams = TemplateParams(
    fromName: string, fromEmail: string, phone: string, position: string,
    experience: string, motivation: string, applicationDate: string, applicationTime: string)

  function ParamsOf(a: Application, date: string, time: string): TemplateParams {
    TemplateParams(a.name, a.email, a.phone, a.position, a.experience, a.motivation, date, time)
  }

  /** The state of the careers page's application modal. */
  class HireForm {
    var openApplication: bool
    var selectedPosition: string
    var formData: Application
    var isSubmitting: bool
    var submitStatus: SubmitStatus
    var formErrors: map<HireField, string>
    /** `document.body.style.overflow == 'hidden'` */
    var scrollLocked: bool
    /** Auto-close timers scheduled after a success and not yet fired. */
    var pendingCloses: nat

    /** The page scroll is locked exactly while the modal is open, and a send
        in flight always started from a cleared status. */
    ghost predicate Valid()
      reads this
    {
      && scrollLocked == openApplication
      && (isSubmitting ==> submitStatus == Idle)
    }

    /** The submit button's `disabled`. */
    predicate SubmitDisabled()
      reads this
    {
      isSubmitting || submitStatus == Success
    }

    constructor ()
      ensures Valid()
      ensures !openApplication && selectedPosition == "" && formData == EmptyApplication
      ensures !isSubmitting && submitStatus == Idle && formErrors == map[]
      ensures !scrollLocked && pendingCloses == 0
    {
      openApplication := false;
      selectedPosition := "";
      formData := EmptyApplication;
      isSubmitting := false;
      submitStatus := Idle;
      formErrors := map[];
      scrollLocked := false;
      pendingCloses := 0;
    }

    /** Replaces the error map with the one for the current data and reports
        whether it is empty. */
    method ValidateForm() returns (ok: bool)
      requires Valid()
      modifies this`formErrors
      ensures Valid()
      ensures formErrors == HireErrors(formData)
      ensures ok <==> formErrors == map[]
    {
      var errors := CollectErrors(formData);
      formErrors := errors;
      ok := |errors| == 0;
    }

    /** Opens the modal for a position, keeping what was typed before. */
    method HandleApply(position: string)
      requires Valid()
      modifies this`selectedPosition, this`formData, this`openApplication,
               this`submitStatus, this`formErrors, this`scrollLocked
      ensures Valid()
      ensures selectedPosition == position && formData == old(formData).With(Position, position)
      ensures openApplication && scrollLocked && submitStatus == Idle && formErrors == map[]
    {
      selectedPosition := position;
      formData := formData.With(Position, position);
      openApplication := true;
      submitStatus := Idle;
      formErrors := map[];
      scrollLocked := true;
    }

    /** Stores one field and blanks that field's error if one is shown. */
    method HandleInputChange(field: HireField, value: string)
      requires Valid()
      modifies this`formData, this`formErrors
      ensures Valid()
      ensures formData == old(formData).With(field, value)
      ensures formErrors ==
        if field in old(formErrors) && old(formErrors)[field] != "" then old(formErrors)[field := ""]
        else old(formErrors)
    {
      formData := formData.With(field, value);
      if field in formErrors && formErrors[field] != "" {
        formErrors := formErrors[field := ""];
      }
    }

    /** A click on the enabled submit button. An invalid form records its errors
        and stops; a valid one marks the send in flight and returns the request. */
    method HandleSubmit(date: string, time: string) returns (request: Option<TemplateParams>)
      requires Valid() && openApplication && !SubmitDisabled()
      modifies this`formErrors, this`isSubmitting, this`submitStatus
      ensures Valid()
      ensures formErrors == HireErrors(formData)
      ensures formErrors != map[] ==>
        request == None && !isSubmitting && submitStatus == old(submitStatus)
      ensures formErrors == map[] ==>
        request == Some(ParamsOf(formData, date, time)) && isSubmitting && submitStatus == Idle
    {
      var ok := ValidateForm();
      if !ok {
        return None;
      }
      isSubmitting := true;
      submitStatus := Idle;
      request := Some(ParamsOf(formData, date, time));
    }

    /** The e-mail call settles: 'OK' means success and schedules the auto-close,
        a throw means error, any other text leaves the status cleared. */
    method SendSettled(outcome: SendOutcome)
      requires Valid() && isSubmitting
      modifies this`isSubmitting, this`submitStatus, this`pendingCloses
      ensures Valid() && !isSubmitting
      ensures submitStatus ==
        match outcome
        case Threw => Failed
        case Resolved(text) => if text == "OK" then Success else Idle
      ensures pendingCloses == old(pendingCloses) + (if outcome == Resolved("OK") then 1 else 0)
    {
      match outcome {
        case Resolved(text) =>
          if text == "OK" {
            submitStatus := Success;
            pendingCloses := pendingCloses + 1;
          }
        case Threw =>
          submitStatus := Failed;
      }
      isSubmitting := false;
    }

    /** Closes the modal and resets everything the application holds. */
    method CloseApplication()
      requires Valid()
      modifies this`openApplication, this`scrollLocked, this`formData,
               this`submitStatus, this`formErrors
      ensures Valid()
      ensures !openApplication && !scrollLocked
      ensures formData == EmptyApplication && submitStatus == Idle && formErrors == map[]
    {
      openApplication := false;
      scrollLocked := false;
      formData := EmptyApplication;
      submitStatus := Idle;
      formErrors := map[];
    }

    /** A scheduled auto-close fires; it closes the modal whatever happened since. */
    method CloseTimerFires()
      requires Valid() && pendingCloses > 0
      modifies this`pendingCloses, this`openApplication, this`scrollLocked, this`formData,
               this`submitStatus, this`formErrors
      ensures Valid() && pendingCloses == old(pendingCloses) - 1
      ensures !openApplication && !scrollLocked
      ensures formData == EmptyApplication && submitStatus == Idle && formErrors == map[]
    {
      pendingCloses := pendingCloses - 1;
      CloseApplication();
    }
  }

  /** An application that fails validation never reaches the e-mail service and
      leaves the form as it was; a valid one is sent once and, on 'OK', succeeds
      and locks the submit button until the modal closes. */
  method SubmitOnce(form: HireForm, date: string, time: string, outcome: SendOutcome)
      returns (request: Option<TemplateParams>)
    requires form.Valid() && form.openApplication && !form.SubmitDisabled()
    modifies form`formErrors, form`isSubmitting, form`submitStatus, form`pendingCloses
    ensures form.Valid() && !form.isSubmitting && form.formData == old(form.formData)
    ensures form.openApplication && form.scrollLocked && form.selectedPosition == old(form.selectedPosition)
    ensures form.formErrors == HireErrors(form.formData)
    ensures HireErrors(form.formData) != map[] ==>
      request == None && form.submitStatus == old(form.submitStatus) && form.pendingCloses == old(form.pendingCloses)
    ensures HireErrors(form.formData) == map[] ==> request == Some(ParamsOf(form.formData, date, time))
    ensures request.Some? && outcome == Resolved("OK") ==>
      form.submitStatus == Success && form.SubmitDisabled() && form.pendingCloses == old(form.pendingCloses) + 1
    ensures request.Some? && outcome.Resolved? && outcome.text != "OK" ==>
      form.submitStatus == Idle && !form.SubmitDisabled() && form.pendingCloses == old(form.pendingCloses)
    ensures request.Some? && outcome == Threw ==>
      form.submitStatus == Failed && !form.SubmitDisabled() && form.pendingCloses == old(form.pendingCloses)
  {
    request := form.HandleSubmit(date, time);
    if request.Some? {
      form.SendSettled(outcome);
    }
  }
}

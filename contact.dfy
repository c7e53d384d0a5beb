/**
 * The contact form: validation of name, e-mail and message, the change
 * handler that clears a field's error, clearing the form, and the submission,
 * whose "API call" is a simulated 1500 ms delay. The delay is modelled as a
 * pending flag that DelayElapsed consumes.
 */
module Contact {
  import opened Wrappers
  import opened Text
  import opened Patterns

  datatype ContactField = Name | Email | Phone | Subject | Message

  /** The `formData` record: five text fields. */
  datatype ContactData = ContactData(name: string, email: string, phone: string, subject: string, message: string)
  {
    function Get(f: ContactField): string {
      match f
      case Name => name
      case Email => email
      case Phone => phone
      case Subject => subject
      case Message => message
    }

    /** `{ ...prevState, [f]: v }` */
    function With(f: ContactField, v: string): (r: ContactData)
      ensures r.Get(f) == v
      ensures forall g :: g != f ==> r.Get(g) == Get(g)
    {
      match f
      case Name => this.(name := v)
      case Email => this.(email := v)
      case Phone => this.(phone := v)
      case Subject => this.(subject := v)
      case Message => this.(message := v)
    }
  }

  /** `initialState` */
  const InitialState := ContactData("", "", "", "", "")

  // ---------------------------------------------------------------------------
  // Per-field rules of validateForm; phone and subject have none

  function NameError(s: string): Option<string> {
    if Trim(s) == [] then Some("Name is required") else None
  }

  function EmailError(s: string): Option<string> {
    if Trim(s) == [] then Some("Email is required")
    else if !MatchesEmailPattern(s) then Some("Invalid email format")
    else None
  }

  function MessageError(s: string): Option<string> {
    if Trim(s) == [] then Some("Message is required") else None
  }

  function FieldError(d: ContactData, f: ContactField): Option<string> {
    match f
    case Name => NameError(d.name)
    case Email => EmailError(d.email)
    case Message => MessageError(d.message)
    case Phone => None
    case Subject => None
  }

  function Record(m: map<ContactField, string>, f: ContactField, e: Option<string>): map<ContactField, string> {
    if e.Some? then m[f := e.value] else m
  }

  /** The `newErrors` map validateForm computes for `d`. */
  function ContactErrors(d: ContactData): map<ContactField, string> {
    ErrorMap(NameError(d.name), EmailError(d.email), MessageError(d.message))
  }

  function ErrorMap(name: Option<string>, email: Option<string>, message: Option<string>): map<ContactField, string> {
    Record(Record(Record(map[], Name, name), Email, email), Message, message)
  }

  /** Builds `newErrors` field by field. */
  method CollectErrors(d: ContactData) returns (errors: map<ContactField, string>)
    ensures errors == ContactErrors(d)
  {
    errors := map[];
    var name := NameError(d.name);
    if name.Some? {
      errors := errors[Name := name.value];
    }
    var email := EmailError(d.email);
    if email.Some? {
      errors := errors[Email := email.value];
    }
    var message := MessageError(d.message);
    if message.Some? {
      errors := errors[Message := message.value];
    }
  }

  // ---------------------------------------------------------------------------
  // What the rules mean

  lemma ErrorMapEntries(name: Option<string>, email: Option<string>, message: Option<string>, f: ContactField)
    ensures var e := match f
                     case Name => name case Email => email case Message => message
                     case Phone => None case Subject => None;
            && (f in ErrorMap(name, email, message) <==> e.Some?)
            && (e.Some? ==> ErrorMap(name, email, message)[f] == e.value)
  {
  }

  /** Each field has an entry exactly when its rule fails; phone and subject
      never do, whatever they hold. */
  lemma ContactErrorsEntries(d: ContactData, f: ContactField)
    ensures f in ContactErrors(d) <==> FieldError(d, f).Some?
    ensures f in ContactErrors(d) ==> ContactErrors(d)[f] == FieldError(d, f).value
    ensures Phone !in ContactErrors(d) && Subject !in ContactErrors(d)
  {
    ErrorMapEntries(NameError(d.name), EmailError(d.email), MessageError(d.message), f);
    ErrorMapEntries(NameError(d.name), EmailError(d.email), MessageError(d.message), Phone);
    ErrorMapEntries(NameError(d.name), EmailError(d.email), MessageError(d.message), Subject);
  }

  /** Name and message are errors exactly when blank; there is no minimum length. */
  lemma BlankRules(d: ContactData)
    ensures Name in ContactErrors(d) <==> AllWhitespace(d.name)
    ensures Message in ContactErrors(d) <==> AllWhitespace(d.message)
  {
    ContactErrorsEntries(d, Name);
    ContactErrorsEntries(d, Message);
    TrimEmptyIff(d.name);
    TrimEmptyIff(d.message);
  }

  /** A blank e-mail is "required"; any other is an error exactly when it is not L@A.B. */
  lemma EmailRule(d: ContactData)
    ensures AllWhitespace(d.email) ==> Email in ContactErrors(d) && ContactErrors(d)[Email] == "Email is required"
    ensures !AllWhitespace(d.email) ==> (Email !in ContactErrors(d) <==> IsAddressShape(d.email))
  {
    ContactErrorsEntries(d, Email);
    TrimEmptyIff(d.email);
    EmailPatternIsAddressShape(d.email);
  }

  /** Editing the phone or the subject never changes the verdict. */
  lemma OptionalFieldsIgnored(d: ContactData, f: ContactField, v: string)
    requires f == Phone || f == Subject
    ensures ContactErrors(d.With(f, v)) == ContactErrors(d)
  {
    var d' := d.With(f, v);
    assert d'.name == d.name && d'.email == d.email && d'.message == d.message by {
      assert d'.Get(Name) == d.Get(Name) && d'.Get(Email) == d.Get(Email) && d'.Get(Message) == d.Get(Message);
    }
  }

  // ---------------------------------------------------------------------------
  // The component

  class ContactForm {
    var formData: ContactData
    var errors: map<ContactField, string>
    var isSubmitting: bool
    var isSuccess: bool
    var errorMessage: string
    var snackbarOpen: bool
    /** The simulated API call's timer is scheduled and has not fired. */
    var deliveryPending: bool

    /** Every recorded error has a message, the pending delay is what keeps the
        form submitting, and no path ever sets an error message. */
    ghost predicate Valid()
      reads this
    {
      && (forall f | f in errors :: errors[f] != "")
      && deliveryPending == isSubmitting
      && errorMessage == ""
    }

    constructor ()
      ensures Valid()
      ensures formData == InitialState && errors == map[]
      ensures !isSubmitting && !isSuccess && errorMessage == "" && !snackbarOpen && !deliveryPending
    {
      formData := InitialState;
      errors := map[];
      isSubmitting := false;
      isSuccess := false;
      errorMessage := "";
      snackbarOpen := false;
      deliveryPending := false;
    }

    /** Replaces the error map entirely and reports whether it is empty. It is
        also called in the middle of a submit, before the delay is scheduled, so
        it keeps Valid() whenever Valid() held on entry. */
    method ValidateForm() returns (ok: bool)
      modifies this`errors
      ensures old(Valid()) ==> Valid()
      ensures forall f | f in errors :: errors[f] != ""
      ensures errors == ContactErrors(formData)
      ensures ok <==> errors == map[]
    {
      var newErrors := CollectErrors(formData);
      forall f | f in newErrors ensures newErrors[f] != "" {
        ContactErrorsEntries(formData, f);
      }
      errors := newErrors;
      ok := |newErrors| == 0;
    }

    /** Stores one field and drops that field's error, leaving the other keys. */
    method HandleChange(field: ContactField, value: string)
      requires Valid()
      modifies this`formData, this`errors
      ensures Valid()
      ensures formData == old(formData).With(field, value)
      ensures errors == old(errors) - {field}
    {
      formData := formData.With(field, value);
      if field in errors && errors[field] != "" {
        errors := errors - {field};
      }
    }

    method ClearForm()
      requires Valid()
      modifies this`formData, this`errors
      ensures Valid()
      ensures formData == InitialState && errors == map[]
    {
      formData := InitialState;
      errors := map[];
    }

    /** A submit while the button is enabled. An invalid form shows its errors and
        is no longer submitting; a valid one waits for the simulated delay. */
    method HandleSubmit() returns (accepted: bool)
      requires Valid() && !isSubmitting
      modifies this`errors, this`isSubmitting, this`isSuccess, this`errorMessage, this`deliveryPending
      ensures Valid()
      ensures errors == ContactErrors(formData)
      ensures accepted <==> errors == map[]
      ensures !isSuccess && errorMessage == ""
      ensures isSubmitting == accepted && deliveryPending == accepted
    {
      isSubmitting, isSuccess, errorMessage := true, false, "";
      var ok := ValidateForm();
      if !ok {
        isSubmitting := false;
        return false;
      }
      deliveryPending := true;
      accepted := true;
    }

    /** The simulated delay ends: the form is cleared and success is shown. */
    method DelayElapsed()
      requires Valid() && deliveryPending
      modifies this`formData, this`errors, this`isSubmitting, this`isSuccess,
               this`errorMessage, this`snackbarOpen, this`deliveryPending
      ensures Valid()
      ensures formData == InitialState && errors == map[]
      ensures !isSubmitting && isSuccess && errorMessage == "" && snackbarOpen
    {
      ClearForm();
      isSubmitting, isSuccess, errorMessage := false, true, "";
      deliveryPending := false;
      snackbarOpen := true;
    }

    method HandleSnackbarClose()
      requires Valid()
      modifies this`snackbarOpen
      ensures Valid()
      ensures !snackbarOpen
    {
      snackbarOpen := false;
    }
  }
}

/** The contact form's submit handler: three independent field checks, the
    status line they drive, and the simulated submission that completes later.

    The handler's DOM writes become record fields: the text of the three inline
    error elements, and the status line's text and colour. The 900 ms timer is an
    explicit `Complete` step that the host may take once per scheduled timer. */
module ContactForm {
  import opened Text
  import Email

  const NameError := "Please enter your full name."
  const EmailError := "Please enter a valid email."
  const MessageError := "Message must be at least 10 characters."

  /** Shortest accepted trimmed name and message. */
  const MinNameLength := 2
  const MinMessageLength := 10

  /** The raw values of the three inputs. */
  datatype Fields = Fields(name: string, email: string, message: string)

  /** What `reset()` leaves in the inputs (they carry no default value). */
  const Cleared := Fields("", "", "")

  /** Text of the three inline error elements; the empty string shows no error. */
  datatype Errors = Errors(name: string, email: string, message: string)

  /** One submission attempt's verdict: every slot's text, and whether any is set. */
  datatype Validation = Validation(errors: Errors, hasError: bool)

  /** The status line. `Idle` is whatever the page shows before the first submit. */
  datatype Status = Idle | Failed | Sending | Succeeded {
    function Message(): string {
      match this
      case Idle => ""
      case Failed => "Please fix the issues above and try again."
      case Sending => "Sending..."
      case Succeeded => "Thanks — we received your message."
    }

    function Color(): string {
      match this
      case Idle => ""
      case Failed => "#b91c1c"
      case Sending => "#333"
      case Succeeded => "#1f9d55"
    }
  }

  /** The form as the handler sees and leaves it. `pending` counts completion
      timers scheduled and not yet fired. */
  datatype Form = Form(fields: Fields, errors: Errors, status: Status, pending: nat)

  const Initial := Form(Cleared, Errors("", "", ""), Idle, 0)

  /** The rule each field must meet, stated on its trimmed value. */
  predicate NameOk(name: string) { |Trim(name)| >= MinNameLength }
  ghost predicate EmailOk(email: string) { Email.MatchesEmailPattern(Trim(email)) }
  predicate MessageOk(message: string) { |Trim(message)| >= MinMessageLength }

  /** The validation block of the submit handler. All three checks run; each
      slot is decided by its own field alone, and the verdict is their OR. */
  function Validate(f: Fields): (v: Validation)
    ensures v.errors.name == (if NameOk(f.name) then "" else NameError)
    ensures v.errors.email == (if EmailOk(f.email) then "" else EmailError)
    ensures v.errors.message == (if MessageOk(f.message) then "" else MessageError)
    ensures v.hasError <==> v.errors != Errors("", "", "")
    ensures !v.hasError <==> NameOk(f.name) && EmailOk(f.email) && MessageOk(f.message)
  {
    var name := Trim(f.name);
    var email := Trim(f.email);
    var message := Trim(f.message);
    var nameBad := name == [] || |name| < MinNameLength;
    var emailBad := !Email.ValidateEmail(email);
    var messageBad := message == [] || |message| < MinMessageLength;
    Email.ValidateEmailMatchesPattern(email);
    Validation(
      Errors(
        if nameBad then NameError else "",
        if emailBad then EmailError else "",
        if messageBad then MessageError else ""),
      nameBad || emailBad || messageBad)
  }

  /** The submit handler. A failing attempt shows the fix-it line and schedules
      nothing; a passing one shows "Sending..." and schedules one completion.
      Either way the inputs keep what the user typed. */
  function Submit(form: Form): (r: Form)
    ensures r.fields == form.fields
    ensures r.errors == Validate(form.fields).errors
    ensures r.status == Failed || r.status == Sending
    ensures r.status == Failed <==>
      !(NameOk(form.fields.name) && EmailOk(form.fields.email) && MessageOk(form.fields.message))
    ensures r.pending == (if r.status == Failed then form.pending else form.pending + 1)
  {
    var v := Validate(form.fields);
    if v.hasError then
      form.(errors := v.errors, status := Failed)
    else
      form.(errors := v.errors, status := Sending, pending := form.pending + 1)
  }

  /** The timer callback: thanks the user and resets the inputs. It leaves the
      inline error texts alone, which `reset()` does not touch. */
  function Complete(form: Form): (r: Form)
    requires form.pending > 0
    ensures r.fields == Cleared && r.status == Succeeded
    ensures r.errors == form.errors && r.pending == form.pending - 1
  {
    Form(Cleared, form.errors, Succeeded, form.pending - 1)
  }

  /** A passing attempt shows "Sending..." in neutral grey; once its timer fires
      the user is thanked in green, every input is empty and no error shows. */
  lemma SubmitThenCompleteSucceeds(form: Form)
    requires NameOk(form.fields.name) && EmailOk(form.fields.email) && MessageOk(form.fields.message)
    ensures var sent := Submit(form);
      && sent.status.Message() == "Sending..." && sent.status.Color() == "#333"
      && sent.pending == form.pending + 1
    ensures var done := Complete(Submit(form));
      && done.status.Message() == "Thanks — we received your message."
      && done.status.Color() == "#1f9d55"
      && done.fields == Cleared
      && done.errors == Errors("", "", "")
      && done.pending == form.pending
  {
  }

  /** A failing attempt shows the fix-it line in red, schedules no completion and
      leaves every input as typed. */
  lemma SubmitFailureKeepsInput(form: Form)
    requires !(NameOk(form.fields.name) && EmailOk(form.fields.email) && MessageOk(form.fields.message))
    ensures var r := Submit(form);
      && r.status.Message() == "Please fix the issues above and try again."
      && r.status.Color() == "#b91c1c"
      && r.fields == form.fields
      && r.pending == form.pending
  {
  }

  /** The inputs a completed submission leaves behind fail every check, so
      pressing submit again right away shows all three errors. */
  lemma ResubmitAfterResetFails(form: Form)
    requires form.pending > 0
    ensures var r := Submit(Complete(form));
      && r.status == Failed
      && r.errors == Errors(NameError, EmailError, MessageError)
  {
    EmptyFailsEveryCheck();
  }

  lemma EmptyFailsEveryCheck()
    ensures !NameOk("") && !EmailOk("") && !MessageOk("")
  {
    TrimEmptyIffBlank("");
    Email.RejectsMissingAt("");
  }

  /** Each error slot depends on its own field alone: two submissions whose
      fields pass or fail the same checks get the same verdict, slot by slot. */
  lemma ValidateSlotsIndependent(f: Fields, g: Fields)
    ensures NameOk(f.name) == NameOk(g.name) ==> Validate(f).errors.name == Validate(g).errors.name
    ensures EmailOk(f.email) == EmailOk(g.email) ==> Validate(f).errors.email == Validate(g).errors.email
    ensures MessageOk(f.message) == MessageOk(g.message) ==> Validate(f).errors.message == Validate(g).errors.message
    ensures (&& NameOk(f.name) == NameOk(g.name)
             && EmailOk(f.email) == EmailOk(g.email)
             && MessageOk(f.message) == MessageOk(g.message))
      ==> Validate(f) == Validate(g)
  {
  }

  /** Whitespace around any input changes nothing in the verdict. */
  lemma ValidateIgnoresPadding(f: Fields, a: string, b: string)
    requires AllWhitespace(a) && AllWhitespace(b)
    ensures Validate(Fields(a + f.name + b, f.email, f.message)) == Validate(f)
    ensures Validate(Fields(f.name, a + f.email + b, f.message)) == Validate(f)
    ensures Validate(Fields(f.name, f.email, a + f.message + b)) == Validate(f)
  {
    TrimIgnoresPadding(a, f.name, b);
    TrimIgnoresPadding(a, f.email, b);
    TrimIgnoresPadding(a, f.message, b);
    ValidateSlotsIndependent(Fields(a + f.name + b, f.email, f.message), f);
    ValidateSlotsIndependent(Fields(f.name, a + f.email + b, f.message), f);
    ValidateSlotsIndependent(Fields(f.name, f.email, a + f.message + b), f);
  }

  /** A blank name or message is rejected, and so is a blank email. */
  lemma BlankFieldsRejected(f: Fields)
    requires AllWhitespace(f.name) && AllWhitespace(f.email) && AllWhitespace(f.message)
    ensures Validate(f).errors == Errors(NameError, EmailError, MessageError)
  {
    TrimEmptyIffBlank(f.name);
    TrimEmptyIffBlank(f.email);
    TrimEmptyIffBlank(f.message);
    Email.RejectsMissingAt("");
  }

  /** Two visible characters make a name; ten make a message. */
  lemma SolidTextAtThresholdAccepted(name: string, message: string)
    requires NoWhitespace(name) && |name| == MinNameLength
    requires NoWhitespace(message) && |message| == MinMessageLength
    ensures NameOk(name) && MessageOk(message)
  {
    TrimKeepsSolidText(name);
    TrimKeepsSolidText(message);
  }

  /** A name shorter than two characters is rejected, however it is trimmed. */
  lemma ShortNameRejected(name: string)
    requires |name| < MinNameLength
    ensures !NameOk(name)
  {
    TrimNoLonger(name);
  }

  /** A message shorter than ten characters is rejected, however it is trimmed. */
  lemma ShortMessageRejected(message: string)
    requires |message| < MinMessageLength
    ensures !MessageOk(message)
  {
    TrimNoLonger(message);
  }

  /** Submitting the untouched form fails every check and shows all three errors. */
  lemma FirstSubmitFails()
    ensures var r := Submit(Initial);
      && r.status == Failed
      && r.errors == Errors(NameError, EmailError, MessageError)
      && r.fields == Cleared && r.pending == 0
  {
    EmptyFailsEveryCheck();
  }

  /** A solid name of two or more characters, an address of the `local@domain.tld`
      shape and a solid message of ten or more characters (say "Jo", "x@y.com"
      and "1234567890") go through and end in thanks with the inputs cleared. */
  lemma GoodSubmissionSucceeds(form: Form, local: string, domain: string, tld: string)
    requires NoWhitespace(form.fields.name) && |form.fields.name| >= MinNameLength
    requires local != [] && domain != [] && tld != []
    requires Email.AllAtom(local) && Email.AllAtom(domain) && Email.AllAtom(tld)
    requires form.fields.email == local + "@" + domain + "." + tld
    requires NoWhitespace(form.fields.message) && |form.fields.message| >= MinMessageLength
    ensures Submit(form).status == Sending
    ensures var done := Complete(Submit(form));
      && done.status.Message() == "Thanks — we received your message."
      && done.fields == Cleared
  {
    TrimKeepsSolidText(form.fields.name);
    TrimKeepsSolidText(form.fields.message);
    Email.PatternIntro(local, domain, tld);
    Email.PatternHasNoWhitespace(form.fields.email);
    TrimKeepsSolidText(form.fields.email);
    SubmitThenCompleteSucceeds(form);
  }

  /** A blank name, an address without `@` and a message under ten characters
      (say "", "bad" and "short") fail all three checks, and the inputs stay. */
  lemma BadSubmissionFails(form: Form)
    requires AllWhitespace(form.fields.name)
    requires '@' !in form.fields.email
    requires |form.fields.message| < MinMessageLength
    ensures var r := Submit(form);
      && r.status == Failed
      && r.status.Message() == "Please fix the issues above and try again."
      && r.errors == Errors(NameError, EmailError, MessageError)
      && r.fields == form.fields
  {
    BlankNameFails(form.fields.name);
    AddressWithoutAtFails(form.fields.email);
    ShortMessageRejected(form.fields.message);
    SubmitFailureKeepsInput(form);
  }

  /** "Jo", "x@y.com" and "1234567890" go through and end in thanks. */
  lemma GoodSubmissionExample()
    ensures var form := Form(Fields("Jo", "x@y.com", "1234567890"), Errors("", "", ""), Idle, 0);
      && Submit(form).status == Sending
      && Complete(Submit(form)).status == Succeeded
      && Complete(Submit(form)).fields == Cleared
  {
    var form := Form(Fields("Jo", "x@y.com", "1234567890"), Errors("", "", ""), Idle, 0);
    assert "x@y.com" == "x" + "@" + "y" + "." + "com";
    GoodSubmissionSucceeds(form, "x", "y", "com");
  }

  /** "", "bad" and "short" fail all three checks and the inputs stay. */
  lemma BadSubmissionExample()
    ensures var form := Form(Fields("", "bad", "short"), Errors("", "", ""), Idle, 0);
      && Submit(form).status == Failed
      && Submit(form).errors == Errors(NameError, EmailError, MessageError)
      && Submit(form).fields == Fields("", "bad", "short")
  {
    var form := Form(Fields("", "bad", "short"), Errors("", "", ""), Idle, 0);
    BadSubmissionFails(form);
  }

  lemma BlankNameFails(name: string)
    requires AllWhitespace(name)
    ensures !NameOk(name)
  {
    TrimEmptyIffBlank(name);
  }

  lemma AddressWithoutAtFails(email: string)
    requires '@' !in email
    ensures !EmailOk(email)
  {
    TrimKeepsAbsentChar(email, '@');
    Email.RejectsMissingAt(Trim(email));
  }
}

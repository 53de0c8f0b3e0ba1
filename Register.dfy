/** The member registration form: editing a field, the password checks run
    before an account is created, the messages shown for the sign-up
    service's error codes, and the profile record written for a new member.
    The sign-up service itself is an outcome given to the submit handler. */
module Register {
  import opened Options

  datatype RegisterForm = RegisterForm(
    name: string,
    email: string,
    phone: string,
    district: string,
    password: string,
    confirmPassword: string)

  /** The form's inputs, by their `name` attribute. */
  datatype Field = Name | Email | Phone | District | Password | ConfirmPassword

  const EmptyForm: RegisterForm := RegisterForm("", "", "", "", "", "")

  function FieldValue(f: RegisterForm, field: Field): string {
    match field
    case Name => f.name
    case Email => f.email
    case Phone => f.phone
    case District => f.district
    case Password => f.password
    case ConfirmPassword => f.confirmPassword
  }

  /** `{...formData, [name]: value}`. */
  function WithField(f: RegisterForm, field: Field, value: string): RegisterForm {
    match field
    case Name => f.(name := value)
    case Email => f.(email := value)
    case Phone => f.(phone := value)
    case District => f.(district := value)
    case Password => f.(password := value)
    case ConfirmPassword => f.(confirmPassword := value)
  }

  /** Setting a field changes that field to the value and no other field. */
  lemma {:induction false} WithFieldSpec(f: RegisterForm, field: Field, value: string)
    ensures FieldValue(WithField(f, field, value), field) == value
    ensures forall other: Field :: other != field ==> FieldValue(WithField(f, field, value), other) == FieldValue(f, other)
  {
  }

  const MismatchMessage: string := "கடவுச்சொற்கள் பொருந்தவில்லை."
  const TooShortMessage: string := "கடவுச்சொல் குறைந்தது 6 எழுத்துக்களாக இருக்க வேண்டும்."
  const EmailInUseMessage: string := "இந்த மின்னஞ்சல் ஏற்கனவே பயன்பாட்டில் உள்ளது."
  const InvalidEmailMessage: string := "தவறான மின்னஞ்சல் முகவரி."
  const WeakPasswordMessage: string := "பலவீனமான கடவுச்சொல். வலுவான கடவுச்சொல்லை பயன்படுத்தவும்."
  const GenericFailureMessage: string := "பதிவு தோல்வியுற்றது. மீண்டும் முயற்சிக்கவும்."

  const MinPasswordLength: nat := 6

  /** The checks before sign-up, in order: the confirmation must match, then
      the password must have at least six characters. `None` means both
      passed. */
  function Validate(f: RegisterForm): Option<string> {
    if f.password != f.confirmPassword then Some(MismatchMessage)
    else if |f.password| < MinPasswordLength then Some(TooShortMessage)
    else None
  }

  /** A mismatch is reported whatever the password's length; a matching
      password that is too short gets the length message; the form passes
      exactly when the passwords match and are long enough. */
  lemma {:induction false} ValidateSpec(f: RegisterForm)
    ensures f.password != f.confirmPassword ==> Validate(f) == Some(MismatchMessage)
    ensures f.password == f.confirmPassword && |f.password| < 6 ==> Validate(f) == Some(TooShortMessage)
    ensures Validate(f).None? <==> f.password == f.confirmPassword && |f.password| >= 6
    ensures Validate(f).Some? ==> Validate(f).value in {MismatchMessage, TooShortMessage}
  {
  }

  /** The message for an error code of the sign-up service. */
  function AuthErrorMessage(code: string): string {
    if code == "auth/email-already-in-use" then EmailInUseMessage
    else if code == "auth/invalid-email" then InvalidEmailMessage
    else if code == "auth/weak-password" then WeakPasswordMessage
    else GenericFailureMessage
  }

  /** Each of the three known codes has a message of its own; every other
      code gets the generic message, so the message tells the known codes
      apart from each other and from the rest. */
  lemma {:induction false} AuthErrorMessageSpec(code: string)
    ensures AuthErrorMessage(code) == EmailInUseMessage <==> code == "auth/email-already-in-use"
    ensures AuthErrorMessage(code) == InvalidEmailMessage <==> code == "auth/invalid-email"
    ensures AuthErrorMessage(code) == WeakPasswordMessage <==> code == "auth/weak-password"
    ensures AuthErrorMessage(code) == GenericFailureMessage <==>
      code !in {"auth/email-already-in-use", "auth/invalid-email", "auth/weak-password"}
  {
    // The four messages differ in length.
    assert |EmailInUseMessage| == 44 && |InvalidEmailMessage| == 24;
    assert |WeakPasswordMessage| == 56 && |GenericFailureMessage| == 45;
  }

  /** The profile document stored for a new member. */
  datatype UserRecord = UserRecord(
    name: string,
    email: string,
    phone: string,
    district: string,
    createdAt: string,
    role: string)

  const MemberRole: string := "member"

  /** What the sign-up service and the profile writes did, as a whole. */
  datatype AuthOutcome = Created | Failed(code: string)

  class RegisterPage {
    var form: RegisterForm
    var error: string
    var loading: bool

    constructor ()
      ensures form == EmptyForm && error == "" && !loading
    {
      form := EmptyForm;
      error := "";
      loading := false;
    }

    /** `handleChange`: replace one field and clear the error. */
    method HandleChange(field: Field, value: string)
      modifies this
      ensures form == WithField(old(form), field, value)
      ensures error == "" && loading == old(loading)
    {
      form := WithField(form, field, value);
      error := "";
    }

    /** `handleSubmit`, given what the sign-up would do (`outcome`) and the
        current time as ISO text (`now`). `attempted` says whether an account
        creation was tried; `saved` is the profile written on success, and
        `goHome` whether the page then navigates to the home page. */
    method HandleSubmit(outcome: AuthOutcome, now: string)
      returns (attempted: bool, saved: Option<UserRecord>, goHome: bool)
      modifies this
      ensures form == old(form) && !loading
      ensures attempted <==> Validate(form).None?
      ensures goHome <==> attempted && outcome.Created?
      ensures !attempted ==> error == Validate(form).value && saved == None
      ensures attempted && outcome.Created? ==>
        error == "" && saved == Some(UserRecord(form.name, form.email, form.phone, form.district, now, MemberRole))
      ensures attempted && outcome.Failed? ==> error == AuthErrorMessage(outcome.code) && saved == None
    {
      loading := true;
      error := "";
      saved := None;
      goHome := false;
      if form.password != form.confirmPassword {
        error := MismatchMessage;
        loading := false;
        return false, None, false;
      }
      if |form.password| < 6 {
        error := TooShortMessage;
        loading := false;
        return false, None, false;
      }
      attempted := true;
      match outcome {
        case Created =>
          saved := Some(UserRecord(form.name, form.email, form.phone, form.district, now, MemberRole));
          goHome := true;
        case Failed(code) =>
          if code == "auth/email-already-in-use" {
            error := EmailInUseMessage;
          } else if code == "auth/invalid-email" {
            error := InvalidEmailMessage;
          } else if code == "auth/weak-password" {
            error := WeakPasswordMessage;
          } else {
            error := GenericFailureMessage;
          }
      }
      loading := false;
    }
  }
}

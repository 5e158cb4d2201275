/**
 * The registration page: the form fields, the terms checkbox and the
 * submit guards (passwords first, then terms), ending after a delay in a
 * success message and the login page.
 */
module Register {
  import opened Wrappers

  datatype RegisterForm = RegisterForm(fullName: string, email: string, phone: string, password: string, confirmPassword: string)

  /** The `name` attributes of the five inputs of the form. */
  datatype Field = FullName | Email | Phone | Password | ConfirmPassword

  function FieldValue(form: RegisterForm, field: Field): string {
    match field
    case FullName => form.fullName
    case Email => form.email
    case Phone => form.phone
    case Password => form.password
    case ConfirmPassword => form.confirmPassword
  }

  /**
   * All five inputs are marked `required`, so the browser lets the form
   * submit only when none of them is empty.
   */
  predicate Filled(form: RegisterForm) {
    && form.fullName != "" && form.email != "" && form.phone != ""
    && form.password != "" && form.confirmPassword != ""
  }

  /** `{ ...prev, [name]: value }` */
  function WithField(form: RegisterForm, field: Field, value: string): (r: RegisterForm)
    ensures FieldValue(r, field) == value
    ensures forall other :: other != field ==> FieldValue(r, other) == FieldValue(form, other)
  {
    match field
    case FullName => form.(fullName := value)
    case Email => form.(email := value)
    case Phone => form.(phone := value)
    case Password => form.(password := value)
    case ConfirmPassword => form.(confirmPassword := value)
  }

  const PasswordMismatch := "Passwords don't match!"
  const TermsError := "Please agree to the terms and conditions"
  const RegisteredMessage := "Registration successful! You can now log in."

  /**
   * The guards of handleSubmit in their order: the error it reports, or
   * none when registration goes ahead.
   */
  function RegistrationError(form: RegisterForm, agreedToTerms: bool): (error: Option<string>)
    ensures error == Some(PasswordMismatch) <==> form.password != form.confirmPassword
    ensures error == Some(TermsError) <==> form.password == form.confirmPassword && !agreedToTerms
    ensures error == None <==> form.password == form.confirmPassword && agreedToTerms
  {
    if form.password != form.confirmPassword then Some(PasswordMismatch)
    else if !agreedToTerms then Some(TermsError)
    else None
  }

  /** The outcome of the delayed part of a successful submit. */
  datatype Registered = Registered(toast: string, path: string)

  class RegisterPage {
    var formData: RegisterForm
    var agreedToTerms: bool
    var isLoading: bool

    constructor()
      ensures formData == RegisterForm("", "", "", "", "")
      ensures !agreedToTerms && !isLoading
    {
      formData := RegisterForm("", "", "", "", "");
      agreedToTerms := false;
      isLoading := false;
    }

    /** handleInputChange: the named field takes the new value, the others keep theirs. */
    method HandleInputChange(field: Field, value: string)
      modifies this`formData
      ensures FieldValue(formData, field) == value
      ensures forall other :: other != field ==> FieldValue(formData, other) == FieldValue(old(formData), other)
    {
      formData := WithField(formData, field, value);
    }

    /** The terms checkbox. */
    method SetAgreedToTerms(checked: bool)
      modifies this`agreedToTerms
      ensures agreedToTerms == checked
    {
      agreedToTerms := checked;
    }

    /**
     * handleSubmit, which the browser runs only on a filled-in form and
     * the disabled button keeps from running while loading: a mismatch of
     * the two passwords is reported before the terms are looked at; either
     * failure reports its message and changes nothing, and only when both
     * checks pass does loading start.
     */
    method HandleSubmit() returns (error: Option<string>)
      requires !isLoading && Filled(formData)
      modifies this`isLoading
      ensures error == RegistrationError(formData, agreedToTerms)
      ensures isLoading <==> error == None
    {
      if formData.password != formData.confirmPassword {
        return Some(PasswordMismatch);
      }
      if !agreedToTerms {
        return Some(TermsError);
      }
      isLoading := true;
      error := None;
    }

    /** The delayed part of handleSubmit: loading ends with the success message and the login page. */
    method FinishRegistration() returns (outcome: Registered)
      requires isLoading
      modifies this`isLoading
      ensures !isLoading
      ensures outcome == Registered(RegisteredMessage, "/login")
    {
      isLoading := false;
      outcome := Registered(RegisteredMessage, "/login");
    }
  }
}

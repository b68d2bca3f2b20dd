/**
 * The sign-up form: the inputs it keeps (the email lower-cased), the three
 * checks a submit runs in order before asking the server to create the
 * user, the message the snack bar shows for each way it fails, and the
 * reset after success. The server's answer to `createUser` is a parameter.
 */
module SignUpForm {
  import opened Wrappers
  import opened Js

  datatype SignUpData = SignUpData(
    firstName: string, lastName: string, email: string, password: string, confirmpassword: string)

  const EmptySignUp: SignUpData := SignUpData("", "", "", "", "")

  /** The named inputs of the form. */
  datatype InputName = FirstNameInput | LastNameInput | EmailInput | PasswordInput | ConfirmInput

  /** `handleInputChange`: the named field takes the value, lower-cased for the email. */
  function WithInput(f: SignUpData, name: InputName, value: string): (r: SignUpData)
    ensures name == EmailInput ==> r == f.(email := ToLower(value))
    ensures name == FirstNameInput ==> r == f.(firstName := value)
    ensures name == LastNameInput ==> r == f.(lastName := value)
    ensures name == PasswordInput ==> r == f.(password := value)
    ensures name == ConfirmInput ==> r == f.(confirmpassword := value)
  {
    match name
    case FirstNameInput => f.(firstName := value)
    case LastNameInput => f.(lastName := value)
    case EmailInput => f.(email := ToLower(value))
    case PasswordInput => f.(password := value)
    case ConfirmInput => f.(confirmpassword := value)
  }

  /** Whatever is typed, the stored email has no upper-case ASCII letter, and typing it again changes nothing. */
  lemma EmailStoredLowerCase(f: SignUpData, value: string)
    ensures forall i :: 0 <= i < |WithInput(f, EmailInput, value).email| ==>
      !('A' <= WithInput(f, EmailInput, value).email[i] <= 'Z')
    ensures WithInput(WithInput(f, EmailInput, value), EmailInput, WithInput(f, EmailInput, value).email) ==
      WithInput(f, EmailInput, value)
  {
    ToLowerIdempotent(value);
  }

  const NameTooLong: string := "You've entered too long a first or last name. Try again."
  const PasswordTooShort: string := "Please enter a password at least 8 characters long."
  const PasswordsDiffer: string := "Passwords don't match. Please try again."
  const EmailInUse: string := "This email is already in use. Please try another one."
  const SomethingWrong: string := "Something went wrong. Please try again."

  /**
   * The checks of `handleFormSubmit`, in order; the first that fails gives
   * the message, which is always one of the form's own three.
   */
  function ValidationMessage(f: SignUpData): (r: Option<string>)
    ensures r.Some? ==> r.value in {NameTooLong, PasswordTooShort, PasswordsDiffer}
    ensures r.Some? ==> r.value != EmailInUse && r.value != SomethingWrong
  {
    if |f.firstName| > 23 || |f.lastName| > 23 then Some(NameTooLong)
    else if |f.password| < 8 || |f.confirmpassword| < 8 then Some(PasswordTooShort)
    else if f.confirmpassword != f.password then Some(PasswordsDiffer)
    else None
  }

  /**
   * The form goes to the server iff both names have at most 23 characters,
   * the password at least 8, and the confirmation repeats it.
   */
  lemma ValidationPasses(f: SignUpData)
    ensures ValidationMessage(f).None? <==>
      |f.firstName| <= 23 && |f.lastName| <= 23 && |f.password| >= 8 && f.confirmpassword == f.password
  {
  }

  /**
   * The checks run in order: a name too long is reported whatever the
   * passwords are, and a short password before a mismatch.
   */
  lemma ValidationOrder(f: SignUpData)
    ensures |f.firstName| > 23 || |f.lastName| > 23 ==> ValidationMessage(f) == Some(NameTooLong)
    ensures |f.firstName| <= 23 && |f.lastName| <= 23 && |f.password| < 8 ==> ValidationMessage(f) == Some(PasswordTooShort)
    ensures ValidationMessage(f) == Some(PasswordsDiffer) ==> |f.password| >= 8 && |f.confirmpassword| >= 8
  {
  }

  /** The snack bar's message for an error of `createUser`. */
  function SubmitErrorMessage(error: string): string
  {
    if error == "Email is already in use." then EmailInUse else SomethingWrong
  }

  /** The snack bar names the taken email only for the server's own message. */
  lemma SubmitErrorMessages(error: string)
    ensures SubmitErrorMessage(error) == EmailInUse <==> error == "Email is already in use."
    ensures SubmitErrorMessage(error) in {EmailInUse, SomethingWrong}
  {
  }

  /** The one error text this server's `createUser` answers with. */
  const CreateUserFailed: string := "Failed to create user. Please try again."

  /**
   * `createUser` rethrows every error, the taken email included, as the
   * generic failure, so against this server the form always shows the
   * generic message.
   */
  lemma CreateUserFailureIsGeneric()
    ensures SubmitErrorMessage(CreateUserFailed) == SomethingWrong
    ensures SubmitErrorMessage(CreateUserFailed) != EmailInUse
  {
  }

  /** The variables of the `createUser` mutation. */
  datatype NewUser = NewUser(firstName: string, lastName: string, email: string, password: string)

  datatype Snackbar = Snackbar(show: bool, message: string)

  class SignUpFormState {
    var formData: SignUpData
    var snackbar: Snackbar

    constructor()
      ensures formData == EmptySignUp && snackbar == Snackbar(false, "")
    {
      formData := EmptySignUp;
      snackbar := Snackbar(false, "");
    }

    /** `handleInputChange`. */
    method HandleInputChange(name: InputName, value: string)
      modifies this`formData
      ensures formData == WithInput(old(formData), name, value)
    {
      if name == EmailInput {
        formData := formData.(email := ToLower(value));
      } else if name == FirstNameInput {
        formData := formData.(firstName := value);
      } else if name == LastNameInput {
        formData := formData.(lastName := value);
      } else if name == PasswordInput {
        formData := formData.(password := value);
      } else {
        formData := formData.(confirmpassword := value);
      }
    }

    /** `showSnackbar`; the timer that hides it again is `HideSnackbar`. */
    method ShowSnackbar(message: string)
      modifies this`snackbar
      ensures snackbar == Snackbar(true, message)
    {
      snackbar := Snackbar(true, message);
    }

    /** The timeout of `showSnackbar`, three seconds later. */
    method HideSnackbar()
      modifies this`snackbar
      ensures snackbar == Snackbar(false, "")
    {
      snackbar := Snackbar(false, "");
    }

    /**
     * `handleFormSubmit`. A failed check shows its message and sends
     * nothing. Otherwise the user is sent to `createUser`, whose answer is
     * `created`: a token, which logs in and clears the form, or an error
     * message, which the snack bar reports while the form keeps its values.
     */
    method HandleFormSubmit(created: Result<string, string>) returns (request: Option<NewUser>, token: Option<string>)
      modifies this`formData, this`snackbar
      ensures request.None? <==> ValidationMessage(old(formData)).Some?
      ensures request.None? ==> token.None? && formData == old(formData)
      ensures request.None? ==> snackbar == Snackbar(true, ValidationMessage(old(formData)).value)
      ensures request.Some? ==> request.value == NewUser(old(formData).firstName, old(formData).lastName, old(formData).email, old(formData).password)
      ensures request.Some? && created.Success? ==> token == Some(created.value) && formData == EmptySignUp
      ensures request.Some? && created.Success? ==> snackbar == old(snackbar)
      ensures request.Some? && created.Failure? ==> token.None? && formData == old(formData)
      ensures request.Some? && created.Failure? ==> snackbar == Snackbar(true, SubmitErrorMessage(created.error))
    {
      token := None;
      if |formData.firstName| > 23 || |formData.lastName| > 23 {
        ShowSnackbar(NameTooLong);
        return None, None;
      }
      if |formData.password| < 8 || |formData.confirmpassword| < 8 {
        ShowSnackbar(PasswordTooShort);
        return None, None;
      }
      if formData.confirmpassword != formData.password {
        ShowSnackbar(PasswordsDiffer);
        return None, None;
      }
      request := Some(NewUser(formData.firstName, formData.lastName, formData.email, formData.password));
      if created.Failure? {
        ShowSnackbar(SubmitErrorMessage(created.error));
        return;
      }
      token := Some(created.value);
      formData := EmptySignUp;
    }
  }
}

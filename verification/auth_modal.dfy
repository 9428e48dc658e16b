/** The sign-in dialog: email and password validated before any request, a
    login or sign-up request, the provider's error turned into a field
    message, and the fields cleared after success. Zod's email check is the
    predicate parameter `isEmail`. */
module AuthModalForm {
  import opened Common

  datatype Mode = Login | Signup

  datatype Errors = Errors(email: Option<string>, password: Option<string>)

  const NoErrors: Errors := Errors(None, None)

  datatype Modal = Modal(open: bool, mode: Mode, email: string, password: string, fullName: string,
                         isLoading: bool, errors: Errors)

  function InitialModal(defaultMode: Mode): Modal {
    Modal(true, defaultMode, "", "", "", false, NoErrors)
  }

  const MinPasswordLength: nat := 6
  const InvalidEmailText: string := "Please enter a valid email"
  const ShortPasswordText: string := "Password must be at least 6 characters"

  /** `validateForm`: one message per failing field. */
  function ValidateForm(email: string, password: string, isEmail: string -> bool): (e: Errors)
    ensures e.email.Some? <==> !isEmail(email)
    ensures e.password.Some? <==> |password| < MinPasswordLength
    ensures e.email.Some? ==> e.email.value == InvalidEmailText
    ensures e.password.Some? ==> e.password.value == ShortPasswordText
  {
    Errors(if isEmail(email) then None else Some(InvalidEmailText),
           if |password| >= MinPasswordLength then None else Some(ShortPasswordText))
  }

  predicate FormValid(email: string, password: string, isEmail: string -> bool) {
    ValidateForm(email, password, isEmail) == NoErrors
  }

  /** The form is valid exactly when the email passes the check and the
      password has at least six characters. */
  lemma FormValidIff(email: string, password: string, isEmail: string -> bool)
    ensures FormValid(email, password, isEmail) <==> isEmail(email) && |password| >= MinPasswordLength
  {
  }

  /** The provider request a submit sends. */
  datatype Request = SignIn(email: string, password: string) | SignUp(email: string, password: string, fullName: string)

  /** Submitting: the form's errors are replaced by the validation result;
      an invalid form sends nothing, a valid one sends the request for the
      current mode and shows the spinner. */
  function Submit(m: Modal, isEmail: string -> bool): (r: (Modal, Option<Request>))
    ensures r.0.errors == ValidateForm(m.email, m.password, isEmail)
    ensures r.1.Some? <==> FormValid(m.email, m.password, isEmail)
    ensures r.1.Some? ==> (&& r.0.isLoading
                           && r.1.value.email == m.email && r.1.value.password == m.password
                           && (r.1.value.SignIn? <==> m.mode == Login)
                           && (r.1.value.SignUp? ==> r.1.value.fullName == m.fullName))
    ensures r.0.email == m.email && r.0.password == m.password && r.0.fullName == m.fullName
    ensures r.0.mode == m.mode && r.0.open == m.open
  {
    var errors := ValidateForm(m.email, m.password, isEmail);
    var m' := m.(errors := errors);
    if errors != NoErrors then (m', None)
    else
      var req := if m.mode == Login then SignIn(m.email, m.password) else SignUp(m.email, m.password, m.fullName);
      (m'.(isLoading := true), Some(req))
  }

  const InvalidCredentials: string := "Invalid login credentials"
  const AlreadyRegistered: string := "User already registered"
  const InvalidCredentialsText: string := "Invalid email or password"
  const AlreadyRegisteredText: string := "This email is already registered. Try logging in."

  /** The provider's error message as the email field shows it, the
      credential check taking precedence. */
  function ErrorText(message: string): (text: string)
    ensures Contains(message, InvalidCredentials) ==> text == InvalidCredentialsText
    ensures !Contains(message, InvalidCredentials) && Contains(message, AlreadyRegistered) ==> text == AlreadyRegisteredText
    ensures !Contains(message, InvalidCredentials) && !Contains(message, AlreadyRegistered) ==> text == message
  {
    if Contains(message, InvalidCredentials) then InvalidCredentialsText
    else if Contains(message, AlreadyRegistered) then AlreadyRegisteredText
    else message
  }

  /** `Contains` is substring search: a message holding a phrase somewhere
      inside it contains it. */
  lemma {:induction false} ContainsInfix(pre: string, sub: string, post: string)
    ensures Contains(pre + sub + post, sub)
    decreases |pre|
  {
    if pre == [] {
      assert pre + sub + post == sub + post;
    } else {
      ContainsInfix(pre[1..], sub, post);
      assert (pre + sub + post)[1..] == pre[1..] + sub + post;
    }
  }

  /** A message that wraps the bad-credentials phrase is reported as bad
      credentials, even when it also holds the already-registered phrase. */
  lemma ErrorTextRecognisesInvalidCredentials(pre: string, post: string)
    ensures ErrorText(pre + InvalidCredentials + post) == InvalidCredentialsText
  {
    ContainsInfix(pre, InvalidCredentials, post);
  }

  /** A message that wraps the already-registered phrase, and not the
      bad-credentials one, is reported as already registered. */
  lemma ErrorTextRecognisesAlreadyRegistered(pre: string, post: string)
    requires !Contains(pre + AlreadyRegistered + post, InvalidCredentials)
    ensures ErrorText(pre + AlreadyRegistered + post) == AlreadyRegisteredText
  {
    ContainsInfix(pre, AlreadyRegistered, post);
  }

  /** The provider's answer: on an error the email field shows the mapped
      text and the fields stay; on success the dialog closes and the three
      fields are cleared. The spinner stops either way. */
  function Respond(m: Modal, error: Option<string>): (r: Modal)
    ensures !r.isLoading && r.mode == m.mode
    ensures error.Some? ==> (&& r.errors == Errors(Some(ErrorText(error.value)), None)
                             && r.email == m.email && r.password == m.password && r.fullName == m.fullName
                             && r.open == m.open)
    ensures error.None? ==> (&& !r.open && r.email == [] && r.password == [] && r.fullName == []
                             && r.errors == m.errors)
  {
    var m' := if error.Some? then m.(errors := Errors(Some(ErrorText(error.value)), None))
              else m.(open := false, email := "", password := "", fullName := "");
    m'.(isLoading := false)
  }

  /** A valid submit that succeeds leaves a closed, empty dialog with no
      errors, ready for the next visitor. */
  lemma SuccessResetsForm(m: Modal, isEmail: string -> bool)
    requires FormValid(m.email, m.password, isEmail)
    ensures var r := Respond(Submit(m, isEmail).0, None);
            !r.open && r.email == [] && r.password == [] && r.fullName == []
            && r.errors == NoErrors && !r.isLoading
  {
  }

  /** Typing in a field. */
  datatype Edit = EditEmail(text: string) | EditPassword(text: string) | EditFullName(text: string)
                | SwitchMode(to: Mode)

  /** Editing the email or password, or switching mode, clears every error;
      editing the optional name does not. */
  function ApplyEdit(m: Modal, e: Edit): (r: Modal)
    ensures e.EditEmail? ==> r.email == e.text && r.password == m.password
    ensures e.EditPassword? ==> r.password == e.text && r.email == m.email
    ensures e.EditFullName? ==> r.fullName == e.text && r.errors == m.errors
    ensures e.SwitchMode? ==> r.mode == e.to && r.email == m.email && r.password == m.password
    ensures !e.EditFullName? ==> r.errors == NoErrors
    ensures r.open == m.open && r.isLoading == m.isLoading
  {
    match e
    case EditEmail(text) => m.(email := text, errors := NoErrors)
    case EditPassword(text) => m.(password := text, errors := NoErrors)
    case EditFullName(text) => m.(fullName := text)
    case SwitchMode(to) => m.(mode := to, errors := NoErrors)
  }

  /** After a failed submit, fixing the fields and submitting again sends
      the request; the stale messages do not block it. */
  lemma ResubmitAfterFix(m: Modal, isEmail: string -> bool, email: string, password: string)
    requires isEmail(email) && |password| >= MinPasswordLength
    ensures var m1 := Submit(m, isEmail).0;
            var m2 := ApplyEdit(ApplyEdit(m1, EditEmail(email)), EditPassword(password));
            Submit(m2, isEmail).1.Some?
  {
  }

  /** `title || (mode === 'login' ? 'Welcome Back' : 'Create Account')`: a
      given non-empty title wins. */
  function ModalTitle(title: Option<string>, mode: Mode): (t: string)
    ensures title.Some? && title.value != [] ==> t == title.value
    ensures !(title.Some? && title.value != []) ==> t == (if mode == Login then "Welcome Back" else "Create Account")
  {
    if title.Some? && title.value != [] then title.value
    else if mode == Login then "Welcome Back" else "Create Account"
  }
}

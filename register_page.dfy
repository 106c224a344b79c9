/** The registration page: the form's state, its change handler, the ordered
    checks made before anything is sent, the payload, and what the page does
    with the answer of the client API it calls. */
module RegisterPage {

  import opened Common
  import Auth = AuthController
  import U = UserModel

  /** The form's five inputs, all strings, all `''` at first. */
  datatype RegisterForm = RegisterForm(name: string, email: string, password: string, confirmPassword: string, phone: string)

  const EmptyForm := RegisterForm("", "", "", "", "")

  datatype Field = Name | Email | Password | ConfirmPassword | Phone

  function Get(form: RegisterForm, field: Field): string {
    match field
    case Name => form.name
    case Email => form.email
    case Password => form.password
    case ConfirmPassword => form.confirmPassword
    case Phone => form.phone
  }

  /** `{ ...formData, [e.target.name]: e.target.value }`: the named input takes
      the new value and every other keeps its own. */
  function WithField(form: RegisterForm, field: Field, value: string): (r: RegisterForm)
    ensures Get(r, field) == value
    ensures forall g :: g != field ==> Get(r, g) == Get(form, g)
  {
    match field
    case Name => form.(name := value)
    case Email => form.(email := value)
    case Password => form.(password := value)
    case ConfirmPassword => form.(confirmPassword := value)
    case Phone => form.(phone := value)
  }

  const MissingFields := "Please fill in all required fields"
  const ShortPassword := "Password must be at least 6 characters"
  const PasswordMismatch := "Passwords do not match"
  const RegisterFailed := "Failed to register. Please try again."

  /** The checks of `handleSubmit`, in their order: the first one that fails
      names the message shown, and a form that passes them all has none. */
  function FirstProblem(form: RegisterForm): (r: Option<string>)
    ensures r == Some(MissingFields) <==> form.name == "" || form.email == "" || form.password == ""
    ensures r == Some(ShortPassword) <==>
              form.name != "" && form.email != "" && form.password != "" && |form.password| < 6
    ensures r == Some(PasswordMismatch) <==>
              form.name != "" && form.email != "" && |form.password| >= 6 && form.password != form.confirmPassword
    ensures r.None? <==> form.name != "" && form.email != "" && |form.password| >= 6 && form.password == form.confirmPassword
  {
    if form.name == "" || form.email == "" || form.password == "" then Some(MissingFields)
    else if |form.password| < 6 then Some(ShortPassword)
    else if form.password != form.confirmPassword then Some(PasswordMismatch)
    else None
  }

  /** `userData`: the confirmation stays on the page, and an empty phone is
      sent as `undefined`. */
  datatype RegisterPayload = RegisterPayload(name: string, email: string, password: string, phone: Option<string>)

  function BuildPayload(form: RegisterForm): (r: RegisterPayload)
    ensures r.name == form.name && r.email == form.email && r.password == form.password
    ensures r.phone.None? <==> form.phone == ""
    ensures r.phone.Some? ==> r.phone.value == form.phone
  {
    RegisterPayload(form.name, form.email, form.password, if form.phone == "" then None else Some(form.phone))
  }

  /** The payload as the backend's register endpoint receives it. */
  function AsRegisterBody(p: RegisterPayload): Auth.RegisterBody {
    Auth.RegisterBody(Some(p.name), Some(p.email), Some(p.password), p.phone)
  }

  /** A form the page lets through always passes the backend's required-field
      check and its password length, and carries a phone exactly when one was typed. */
  lemma AcceptedFormMeetsBackendMinimums(form: RegisterForm)
    requires FirstProblem(form).None?
    ensures var body := AsRegisterBody(BuildPayload(form));
            && Truthy(body.name) && Truthy(body.email) && Truthy(body.password)
            && |body.password.value| >= U.PasswordMin
            && (body.phone.Some? <==> form.phone != "")
  {
  }

  /** A stored user as the client keeps it: a JSON object. */
  type UserData = map<string, string>

  /** How the awaited API call ends: with `{ user, token }`, or by throwing an
      error whose `message` and `error` properties may be absent. */
  datatype CallResult = Resolved(user: UserData, token: string) | Rejected(message: Option<string>, error: Option<string>)

  /** `err.message || err.error || 'Failed to register. Please try again.'` */
  function ErrorText(message: Option<string>, error: Option<string>): (r: string)
    ensures r != ""
    ensures Truthy(message) ==> r == message.value
    ensures !Truthy(message) && Truthy(error) ==> r == error.value
    ensures !Truthy(message) && !Truthy(error) ==> r == RegisterFailed
  {
    if Truthy(message) then message.value
    else if Truthy(error) then error.value
    else RegisterFailed
  }

  /** `login(user, token)`: the user with the token merged in. */
  function SessionOf(user: UserData, token: string): (s: UserData)
    ensures s.Keys == user.Keys + {"token"}
    ensures s["token"] == token
    ensures forall k :: k in user && k != "token" ==> s[k] == user[k]
  {
    user + map["token" := token]
  }

  /** How a submission ends: refused on the page, failed with a shown message,
      or registered with a session. */
  datatype SubmitEnd = Invalid(message: string) | Failed(message: string) | Registered(session: UserData)

  /** `handleSubmit` with the function `api.registerUser` resolves to: `None`
      when the imported module has no such export, so that calling it throws a
      `TypeError` with `notFunction` as its message. */
  function Submit(form: RegisterForm, registerUser: Option<RegisterPayload -> CallResult>, notFunction: string): (r: SubmitEnd)
    ensures r.Invalid? <==> FirstProblem(form).Some?
    ensures r.Invalid? ==> r.message == FirstProblem(form).value
    ensures r.Registered? <==> && FirstProblem(form).None? && registerUser.Some?
                               && registerUser.value(BuildPayload(form)).Resolved?
    ensures r.Registered? ==> var answer := registerUser.value(BuildPayload(form));
                              r.session == SessionOf(answer.user, answer.token)
    ensures r.Failed? ==> r.message != ""
    ensures r.Failed? && registerUser.None? ==> r.message == ErrorText(Some(notFunction), None)
  {
    match FirstProblem(form)
    case Some(problem) => Invalid(problem)
    case None =>
      match registerUser
      case None => Failed(ErrorText(Some(notFunction), None))
      case Some(call) =>
        match call(BuildPayload(form))
        case Resolved(user, token) => Registered(SessionOf(user, token))
        case Rejected(message, error) => Failed(ErrorText(message, error))
  }

  /** The named exports of the client API module the page imports with
      `import * as api`: it exports the single object `api`. */
  const MockApiExports: set<string> := {"api"}

  /** The member `api.<name>` of that namespace, as written: only exports exist. */
  function NamespaceMember(name: string, exported: RegisterPayload -> CallResult): Option<RegisterPayload -> CallResult> {
    if name in MockApiExports then Some(exported) else None
  }

  /** As written, the page calls `api.registerUser` on a namespace without that
      export: no form ever registers, and every form that passes the page's
      checks ends in the `TypeError`'s message. */
  lemma AsWrittenNeverRegisters(form: RegisterForm, anyExport: RegisterPayload -> CallResult, notFunction: string)
    ensures var r := Submit(form, NamespaceMember("registerUser", anyExport), notFunction);
            && !r.Registered?
            && (FirstProblem(form).None? && notFunction != "" ==> r == Failed(notFunction))
  {
    assert "registerUser" != "api";
  }

  /** With a register call that exists, a form that passes the checks and a
      resolving call always ends signed in, holding the returned token. */
  lemma CorrectedRegisters(form: RegisterForm, registerUser: RegisterPayload -> CallResult, notFunction: string)
    requires FirstProblem(form).None?
    requires registerUser(BuildPayload(form)).Resolved?
    ensures var r := Submit(form, Some(registerUser), notFunction);
            r.Registered? && r.session["token"] == registerUser(BuildPayload(form)).token
  {
  }

  /** The page's state. `session` is the signed-in user the auth context holds
      and `location` the route it navigated to. */
  class RegisterScreen {
    var form: RegisterForm
    var error: string
    var loading: bool
    var session: Option<UserData>
    var location: Option<string>

    constructor ()
      ensures form == EmptyForm && error == "" && !loading && session.None? && location.None?
    {
      form := EmptyForm;
      error := "";
      loading := false;
      session := None;
      location := None;
    }

    /** `handleChange`: the typed value goes into its field and the error clears. */
    method HandleChange(field: Field, value: string)
      modifies this`form, this`error
      ensures form == WithField(old(form), field, value) && error == ""
    {
      form := WithField(form, field, value);
      error := "";
    }

    /** `handleSubmit`: how it ends, with the message shown, the loading flag
      (left alone when a check fails, cleared by `finally` otherwise), the
      session and the route. */
    method HandleSubmit(registerUser: Option<RegisterPayload -> CallResult>, notFunction: string) returns (r: SubmitEnd)
      modifies this`error, this`loading, this`session, this`location
      ensures r == Submit(form, registerUser, notFunction)
      ensures error == (if r.Registered? then "" else r.message)
      ensures loading == (r.Invalid? && old(loading))
      ensures session == (if r.Registered? then Some(r.session) else old(session))
      ensures location == (if r.Registered? then Some("/") else old(location))
    {
      error := "";
      var problem := FirstProblem(form);
      if problem.Some? {
        error := problem.value;
        return Invalid(problem.value);
      }
      loading := true;
      var payload := BuildPayload(form);
      if registerUser.None? {
        r := Failed(ErrorText(Some(notFunction), None));
      } else {
        var answer := registerUser.value(payload);
        if answer.Resolved? {
          session := Some(SessionOf(answer.user, answer.token));
          location := Some("/");
          r := Registered(session.value);
        } else {
          r := Failed(ErrorText(answer.message, answer.error));
        }
      }
      if !r.Registered? {
        error := r.message;
      }
      loading := false;
    }
  }
}

/** The account endpoints (backend/controllers/authController.js): register,
    log in, change one's name and phone, change one's password. Token signing
    is left out: a successful register or login returns the user the token
    would be signed for. Password hashing and checking are parameters. */
module AuthController {

  import opened Common
  import opened Text
  import opened Query
  import opened UserModel
  import opened Database

  /** The key a lookup by email uses: the handler lowercases the email, and
      the query then passes it through the schema's `trim` and `lowercase`
      setters, the same ones the stored email went through. */
  function EmailKey(email: string): string {
    Lower(Trim(Lower(email)))
  }

  /** The body of `POST /api/auth/register`. */
  datatype RegisterBody = RegisterBody(name: Option<string>, email: Option<string>, password: Option<string>, phone: Option<string>)

  /** The phone the handler passes on: trimmed, and only when something is left. */
  function RegisterPhone(phone: Option<string>): (r: Option<string>)
    ensures r.Some? <==> Truthy(phone) && Trim(phone.value) != ""
    ensures r.Some? ==> r.value == Trim(phone.value) && Trimmed(r.value)
  {
    if Truthy(phone) && Trim(phone.value) != "" then Some(Trim(phone.value)) else None
  }

  /** The fields `register` hands to `User.create`: a verified seller. */
  function RegisterInput(body: RegisterBody): (input: UserInput)
    requires body.name.Some? && body.email.Some? && body.password.Some?
    ensures input.role == Some(Seller) && input.isVerified == Some(true)
    ensures input.email == Lower(body.email.value)
    ensures input.phone == RegisterPhone(body.phone)
  {
    UserInput(body.name.value, Lower(body.email.value), body.password.value, RegisterPhone(body.phone), Some(Seller), Some(true))
  }

  /** `register`: the three required fields (400), a free email (400), the
      schema validators (400) and a free phone (400, from the duplicate-key
      error); then a verified, active seller is stored. */
  method Register(db: Db, body: RegisterBody, hash: string -> string, now: int) returns (r: Result<User>)
    requires db.Valid()
    modifies db`users, db`nextId
    ensures db.Valid()
    ensures !Truthy(body.name) || !Truthy(body.email) || !Truthy(body.password) ==>
      r == Err(BadRequest("Please provide name, email, and password"))
    ensures Truthy(body.name) && Truthy(body.email) && Truthy(body.password) && EmailIndex(old(db.users), EmailKey(body.email.value)).Some? ==>
      r == Err(BadRequest("Email already registered"))
    ensures r.Ok? <==> && Truthy(body.name) && Truthy(body.email) && Truthy(body.password)
                       && EmailIndex(old(db.users), EmailKey(body.email.value)).None?
                       && InputAcceptable(RegisterInput(body))
                       && (RegisterPhone(body.phone).Some? ==> PhoneHolder(old(db.users), RegisterPhone(body.phone).value, None).None?)
    ensures r.Err? ==> r.failure.BadRequest? && db.users == old(db.users)
    ensures r.Ok? ==> && db.users == old(db.users) + [r.value]
                      && UserIndex(old(db.users), r.value.id).None?
                      && r.value.email == EmailKey(body.email.value)
                      && r.value.name == Trim(body.name.value)
                      && r.value.password == hash(body.password.value)
                      && r.value.phone == RegisterPhone(body.phone)
                      && r.value.role == Seller && r.value.isVerified && r.value.isActive
                      && r.value.createdAt == now
  {
    if !Truthy(body.name) || !Truthy(body.email) || !Truthy(body.password) {
      return Err(BadRequest("Please provide name, email, and password"));
    }
    if EmailIndex(db.users, EmailKey(body.email.value)).Some? {
      return Err(BadRequest("Email already registered"));
    }
    var created := NewUser(db.nextId, RegisterInput(body), hash, now);
    if created.Err? {
      return Err(created.failure);
    }
    var u := created.value;
    if body.phone.Some? {
      TrimIdempotent(body.phone.value);
    }
    if u.phone.Some? && PhoneHolder(db.users, u.phone.value, None).Some? {
      return Err(BadRequest("phone already exists in database"));
    }
    var id := db.FreshId();
    db.AppendUser(u);
    r := Ok(u);
  }

  const InvalidCredentials := Unauthorized("Invalid credentials")

  /** The body of `POST /api/auth/login`. */
  datatype LoginBody = LoginBody(email: Option<string>, password: Option<string>)

  /** `login`: the two fields (400); an unknown email and a wrong password
      both give the same 401; a deactivated account is refused (403) only
      once the password has matched. */
  function Login(users: seq<User>, body: LoginBody, verify: (string, string) -> bool): (r: Result<User>)
    ensures !Truthy(body.email) || !Truthy(body.password) ==> r == Err(BadRequest("Please provide email and password"))
    ensures Truthy(body.email) && Truthy(body.password) ==>
      match EmailIndex(users, EmailKey(body.email.value))
      case None => r == Err(InvalidCredentials)
      case Some(i) =>
        if !verify(body.password.value, users[i].password) then r == Err(InvalidCredentials)
        else if !users[i].isActive then r == Err(Forbidden("Account is deactivated"))
        else r == Ok(users[i])
    ensures r.Ok? ==> r.value in users && r.value.email == EmailKey(body.email.value) && r.value.isActive
  {
    if !Truthy(body.email) || !Truthy(body.password) then Err(BadRequest("Please provide email and password"))
    else match EmailIndex(users, EmailKey(body.email.value))
      case None => Err(InvalidCredentials)
      case Some(i) =>
        if !verify(body.password.value, users[i].password) then Err(InvalidCredentials)
        else if !users[i].isActive then Err(Forbidden("Account is deactivated"))
        else Ok(users[i])
  }

  /** A failed login does not say whether the email is registered: an
      unknown email and a known email with a wrong password get the same answer. */
  lemma LoginHidesAccounts(users: seq<User>, email: string, password: string, verify: (string, string) -> bool)
    requires email != "" && password != ""
    requires EmailIndex(users, EmailKey(email)).None? ||
             !verify(password, users[EmailIndex(users, EmailKey(email)).value].password)
    ensures Login(users, LoginBody(Some(email), Some(password)), verify) == Err(InvalidCredentials)
  {
  }

  /** Register then log in: with a checker that accepts exactly the hash of
      the password, the account just stored is the one logged into, with the
      email as typed at registration in any letter case. */
  lemma LoginAfterRegister(users: seq<User>, u: User, email: string, login: string, password: string, hash: string -> string, verify: (string, string) -> bool)
    requires forall p :: verify(p, hash(p))
    requires forall j :: 0 <= j < |users| ==> users[j].email != u.email
    requires u.email == EmailKey(email) && u.password == hash(password) && u.isActive
    requires EmailKey(login) == EmailKey(email)
    requires login != "" && password != ""
    ensures Login(users + [u], LoginBody(Some(login), Some(password)), verify) == Ok(u)
  {
    EmailIndexAppended(users, u);
    var s := users + [u];
    assert Login(s, LoginBody(Some(login), Some(password)), verify) == Ok(s[|users|]);
  }

  /** A lookup by the email of a user appended under a fresh email lands on that user. */
  lemma EmailIndexAppended(users: seq<User>, u: User)
    requires forall j :: 0 <= j < |users| ==> users[j].email != u.email
    ensures EmailIndex(users + [u], u.email) == Some(|users|)
  {
    var s := users + [u];
    assert forall j :: 0 <= j < |users| ==> s[j].email != u.email;
    assert s[|users|].email == u.email;
  }

  /** `getMe`: the caller's own record, read again from the store. A caller
      that no longer exists makes the handler fail on the missing document. */
  function GetMe(users: seq<User>, me: Id): (r: Result<User>)
    ensures r.Ok? <==> exists i :: 0 <= i < |users| && users[i].id == me
    ensures r.Ok? ==> r.value in users && r.value.id == me
    ensures r.Err? ==> r.failure.ServerError?
  {
    match UserIndex(users, me)
    case None => Err(ServerError("Cannot read properties of null"))
    case Some(i) => Ok(users[i])
  }

  /** The body of `PUT /api/auth/update`. */
  datatype DetailsBody = DetailsBody(name: Option<string>, phone: Option<string>)

  /** The update validators on the fields the update sets, after the `trim` setters. */
  predicate DetailsAcceptable(body: DetailsBody) {
    && (Truthy(body.name) ==> Trim(body.name.value) != "" && |Trim(body.name.value)| <= NameMax)
    && (Truthy(body.phone) ==> PhoneAccepted(Trim(body.phone.value)))
  }

  /** The user after the update: name and phone replaced only when supplied non-empty. */
  function WithDetails(u: User, body: DetailsBody): (r: User)
    ensures r.name == (if Truthy(body.name) then Trim(body.name.value) else u.name)
    ensures r.phone == (if Truthy(body.phone) then Some(Trim(body.phone.value)) else u.phone)
    ensures r.(name := u.name, phone := u.phone) == u
  {
    u.(name := if Truthy(body.name) then Trim(body.name.value) else u.name,
       phone := if Truthy(body.phone) then Some(Trim(body.phone.value)) else u.phone)
  }

  /** A phone of blanks is truthy, so it is set; the `trim` setter makes it
      empty, which the `match` validator lets through: the empty phone is stored. */
  lemma BlankPhoneStoredEmpty(u: User, phone: string)
    requires phone != "" && Trim(phone) == ""
    ensures DetailsAcceptable(DetailsBody(None, Some(phone)))
    ensures WithDetails(u, DetailsBody(None, Some(phone))).phone == Some("")
  {
  }

  /** An accepted update keeps a stored user valid. */
  lemma WithDetailsValid(u: User, body: DetailsBody)
    requires Valid(u) && DetailsAcceptable(body)
    ensures Valid(WithDetails(u, body))
  {
  }

  /** `updateDetails`: the caller's name and phone, each only when supplied
      non-empty, validated (400) and with the phone free among the other
      users (400, from the duplicate-key error). A caller that no longer
      exists makes the handler fail on the missing document. */
  method UpdateDetails(db: Db, me: Id, body: DetailsBody) returns (r: Result<User>)
    requires db.Valid()
    modifies db`users
    ensures db.Valid()
    ensures UserIndex(old(db.users), me).None? ==> r.Err? && r.failure.ServerError?
    ensures UserIndex(old(db.users), me).Some? && !DetailsAcceptable(body) ==> r == Err(BadRequest("User validation failed"))
    ensures r.Err? ==> db.users == old(db.users)
    ensures r.Ok? <==> && UserIndex(old(db.users), me).Some? && DetailsAcceptable(body)
                       && (Truthy(body.phone) ==> PhoneHolder(old(db.users), Trim(body.phone.value), Some(me)).None?)
    ensures r.Ok? ==> var i := UserIndex(old(db.users), me).value;
      && r.value == WithDetails(old(db.users)[i], body)
      && db.users == old(db.users)[i := r.value]
  {
    match UserIndex(db.users, me)
    case None =>
      r := Err(ServerError("Cannot read properties of null"));
    case Some(i) =>
      if !DetailsAcceptable(body) {
        return Err(BadRequest("User validation failed"));
      }
      if Truthy(body.phone) && PhoneHolder(db.users, Trim(body.phone.value), Some(me)).Some? {
        return Err(BadRequest("Duplicate field value entered"));
      }
      var u := WithDetails(db.users[i], body);
      WithDetailsValid(db.users[i], body);
      assert u.email == db.users[i].email && u.id == me;
      db.ReplaceUser(i, u);
      r := Ok(u);
  }

  /** The body of `PUT /api/auth/update-password`. */
  datatype PasswordBody = PasswordBody(currentPassword: Option<string>, newPassword: Option<string>)

  /** `updatePassword`: both fields (400); the current password must match
      (401, nothing changes); the new password must pass the length
      validator (400); then the stored hash becomes the new password's hash
      and nothing else changes. */
  method UpdatePassword(db: Db, me: Id, body: PasswordBody, hash: string -> string, verify: (string, string) -> bool) returns (r: Result<User>)
    requires db.Valid()
    modifies db`users
    ensures db.Valid()
    ensures !Truthy(body.currentPassword) || !Truthy(body.newPassword) ==>
      r == Err(BadRequest("Please provide current and new password"))
    ensures Truthy(body.currentPassword) && Truthy(body.newPassword) && UserIndex(old(db.users), me).None? ==>
      r.Err? && r.failure.ServerError?
    ensures Truthy(body.currentPassword) && Truthy(body.newPassword) && UserIndex(old(db.users), me).Some? &&
            !verify(body.currentPassword.value, old(db.users)[UserIndex(old(db.users), me).value].password) ==>
      r == Err(Unauthorized("Current password is incorrect"))
    ensures r.Err? ==> db.users == old(db.users)
    ensures r.Ok? <==> && Truthy(body.currentPassword) && Truthy(body.newPassword)
                       && UserIndex(old(db.users), me).Some?
                       && verify(body.currentPassword.value, old(db.users)[UserIndex(old(db.users), me).value].password)
                       && |body.newPassword.value| >= PasswordMin
    ensures r.Ok? ==> var i := UserIndex(old(db.users), me).value;
      && r.value == old(db.users)[i].(password := hash(body.newPassword.value))
      && db.users == old(db.users)[i := r.value]
  {
    if !Truthy(body.currentPassword) || !Truthy(body.newPassword) {
      return Err(BadRequest("Please provide current and new password"));
    }
    match UserIndex(db.users, me)
    case None =>
      r := Err(ServerError("Cannot read properties of null"));
    case Some(i) =>
      if !verify(body.currentPassword.value, db.users[i].password) {
        return Err(Unauthorized("Current password is incorrect"));
      }
      if |body.newPassword.value| < PasswordMin {
        return Err(BadRequest("User validation failed"));
      }
      var u := db.users[i].(password := hash(body.newPassword.value));
      db.ReplaceUser(i, u);
      r := Ok(u);
  }

  /** After a password change, with a checker that accepts exactly the hash of
      the password, the new password logs in and the old one no longer does. */
  lemma LoginAfterPasswordChange(users: seq<User>, i: nat, oldPassword: string, newPassword: string, login: string,
                                 hash: string -> string, verify: (string, string) -> bool)
    requires forall p, q :: verify(p, hash(q)) <==> p == q
    requires i < |users| && EmailIndex(users, users[i].email) == Some(i) && users[i].isActive
    requires oldPassword != newPassword && login != "" && oldPassword != "" && newPassword != ""
    requires EmailKey(login) == users[i].email
    ensures var s := users[i := users[i].(password := hash(newPassword))];
      && Login(s, LoginBody(Some(login), Some(newPassword)), verify) == Ok(s[i])
      && Login(s, LoginBody(Some(login), Some(oldPassword)), verify) == Err(InvalidCredentials)
  {
    var s := users[i := users[i].(password := hash(newPassword))];
    EmailIndexAfterReplace(users, i, s[i]);
  }

  /** Replacing a user by one with the same email keeps where a lookup by that email lands. */
  lemma EmailIndexAfterReplace(users: seq<User>, i: nat, u: User)
    requires i < |users| && EmailIndex(users, users[i].email) == Some(i) && u.email == users[i].email
    ensures EmailIndex(users[i := u], u.email) == Some(i)
  {
    var s := users[i := u];
    assert forall j :: 0 <= j < i ==> s[j].email != u.email;
    assert s[i].email == u.email;
  }
}

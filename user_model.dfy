/** The user document (backend/models/User.js): field setters and validators,
    the role enum and the defaults. Password hashing is a parameter. */
module UserModel {

  import opened Common
  import opened Text

  datatype Role = UserRole | Seller | Admin

  function RoleName(r: Role): string {
    match r
    case UserRole => "user"
    case Seller => "seller"
    case Admin => "admin"
  }

  function ParseRole(s: string): (r: Option<Role>)
    ensures r.Some? ==> RoleName(r.value) == s
    ensures r.None? <==> s !in {"user", "seller", "admin"}
  {
    if s == "user" then Some(UserRole)
    else if s == "seller" then Some(Seller)
    else if s == "admin" then Some(Admin)
    else None
  }

  datatype User = User(
    id: Id,
    name: string,
    email: string,
    password: string,      // the stored hash
    phone: Option<string>,
    role: Role,
    isVerified: bool,
    isActive: bool,
    avatar: Option<string>,
    rating: real,
    totalRatings: int,
    totalViews: int,
    createdAt: int)

  /** The sort key of the newest-first user list. */
  function JoinedAt(u: User): int {
    u.createdAt
  }

  const NameMax := 50
  const PasswordMin := 6
  const DefaultRating: real := 5.0

  /** `/^[^\s@]+@[^\s@]+\.[^\s@]+$/`: no white space, exactly one '@' with
      something before it, and after it a '.' with something on both sides. */
  predicate EmailShape(s: string) {
    && NoSpace(s)
    && Count(s, '@') == 1
    && match IndexOf(s, '@')
       case None => false
       case Some(i) => i > 0 && i + 2 <= |s| - 1 && Count(s[i + 2..|s| - 1], '.') > 0
  }

  /** `/^(\+251|0)[0-9]{9}$/`: "+251" or "0" followed by exactly nine digits. */
  predicate EthiopianPhoneShape(s: string) {
    || (|s| == 13 && s[..4] == "+251" && AllDigits(s[4..]))
    || (|s| == 10 && s[0] == '0' && AllDigits(s[1..]))
  }

  /** The `match` validator on `phone`: Mongoose lets the empty string through
      without testing the pattern. */
  predicate PhoneAccepted(s: string) {
    s == "" || EthiopianPhoneShape(s)
  }

  /** The fields passed to `User.create`, before the setters run. */
  datatype UserInput = UserInput(
    name: string,
    email: string,
    password: string,
    phone: Option<string>,
    role: Option<Role>,
    isVerified: Option<bool>)

  /** The validators of a new user, checked on the values the setters
      (`trim`, `lowercase`) produce, and on the plain-text password. */
  predicate InputAcceptable(input: UserInput) {
    && Trim(input.name) != "" && |Trim(input.name)| <= NameMax
    && Lower(Trim(input.email)) != "" && EmailShape(Lower(Trim(input.email)))
    && input.password != "" && |input.password| >= PasswordMin
    && (input.phone.Some? ==> PhoneAccepted(Trim(input.phone.value)))
  }

  /** The invariants of a stored user. */
  predicate Valid(u: User) {
    && Trimmed(u.name) && u.name != "" && |u.name| <= NameMax
    && Trimmed(u.email) && LowerCase(u.email) && EmailShape(u.email)
    && (u.phone.Some? ==> PhoneAccepted(u.phone.value))
    && 0.0 <= u.rating <= 5.0
  }

  /** `User.create` up to the uniqueness indexes: the setters, the validators,
      the pre-save hashing and the defaults (role `seller`, not verified,
      active, rating 5.0, no ratings, no avatar). */
  function NewUser(id: Id, input: UserInput, hash: string -> string, now: int): (r: Result<User>)
    ensures r.Ok? <==> InputAcceptable(input)
    ensures r.Err? ==> r.failure.BadRequest?
    ensures r.Ok? ==> Valid(r.value)
    ensures r.Ok? ==> && r.value.id == id
                      && r.value.name == Trim(input.name)
                      && r.value.email == Lower(Trim(input.email))
                      && r.value.password == hash(input.password)
                      && r.value.phone == (if input.phone.Some? then Some(Trim(input.phone.value)) else None)
                      && r.value.createdAt == now
    ensures r.Ok? ==> && r.value.role == (if input.role.Some? then input.role.value else Seller)
                      && r.value.isVerified == (input.isVerified == Some(true))
                      && r.value.isActive
                      && r.value.avatar.None?
                      && r.value.rating == DefaultRating
                      && r.value.totalRatings == 0
  {
    if !InputAcceptable(input) then Err(BadRequest("User validation failed"))
    else
      var name, email := Trim(input.name), Lower(Trim(input.email));
      LowerKeepsTrimmed(Trim(input.email));
      LowerIdempotent(Trim(input.email));
      var phone := if input.phone.Some? then Some(Trim(input.phone.value)) else None;
      var u := User(
        id, name, email, hash(input.password), phone,
        if input.role.Some? then input.role.value else Seller,
        input.isVerified == Some(true), true, None, DefaultRating, 0, 0, now);
      assert Valid(u);
      Ok(u)
  }

  /** The email setters are idempotent: a stored email passes through them unchanged. */
  lemma LowerTrimIdempotent(s: string)
    ensures Lower(Trim(Lower(Trim(s)))) == Lower(Trim(s))
  {
    var t := Trim(s);
    LowerKeepsTrimmed(t);
    TrimmedFixpoint(Lower(t));
    LowerIdempotent(t);
  }
}

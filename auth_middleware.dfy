/** The route guards (backend/middleware/auth.js): `protect` reads a bearer
    token and loads an active user, `authorize` checks the role, and
    `checkOwnership` lets admins and owners through. Token verification is the
    `decode` parameter: the user id a valid token carries, or `None`. */
module AuthMiddleware {

  import opened Common
  import opened Text
  import U = UserModel
  import L = ListingModel
  import opened Database

  /** The token of an `Authorization` header: the second ' '-separated piece,
      when the header starts with "Bearer" and that piece is non-empty. */
  function ExtractToken(header: Option<string>): (r: Option<string>)
    ensures r.Some? <==> header.Some? && StartsWith(header.value, "Bearer")
                         && |Split(header.value, ' ')| >= 2 && Split(header.value, ' ')[1] != ""
    ensures r.Some? ==> r.value == Split(header.value, ' ')[1] && ' ' !in r.value
  {
    if header.Some? && StartsWith(header.value, "Bearer") then
      var parts := Split(header.value, ' ');
      if |parts| >= 2 && parts[1] != "" then Some(parts[1]) else None
    else None
  }

  /** The usual header `Bearer <token>` yields the token. */
  lemma BearerHeaderToken(token: string)
    requires token != "" && ' ' !in token
    ensures ExtractToken(Some("Bearer " + token)) == Some(token)
  {
    SplitWithoutSeparator("Bearer", ' ');
    SplitWithoutSeparator(token, ' ');
    SplitAppend("Bearer", token, ' ');
    assert "Bearer " + token == "Bearer" + [' '] + token;
    assert ("Bearer " + token)[..6] == "Bearer";
  }

  const NotAuthorized := Unauthorized("Not authorized to access this route")

  /** `protect`: no token or an invalid one is 401; a token for no stored user
      is 404; a deactivated user is 403; otherwise the request carries the user. */
  function Protect(header: Option<string>, decode: string -> Option<Id>, users: seq<U.User>): (r: Result<U.User>)
    ensures ExtractToken(header).None? ==> r == Err(NotAuthorized)
    ensures ExtractToken(header).Some? && decode(ExtractToken(header).value).None? ==> r == Err(NotAuthorized)
    ensures ExtractToken(header).Some? && decode(ExtractToken(header).value).Some? ==>
      var id := decode(ExtractToken(header).value).value;
      && (UserIndex(users, id).None? ==> r == Err(NotFound("User not found")))
      && (UserIndex(users, id).Some? && !users[UserIndex(users, id).value].isActive ==> r == Err(Forbidden("User account is deactivated")))
      && (UserIndex(users, id).Some? && users[UserIndex(users, id).value].isActive ==> r == Ok(users[UserIndex(users, id).value]))
    ensures r.Ok? ==> r.value in users && r.value.isActive
  {
    match ExtractToken(header)
    case None => Err(NotAuthorized)
    case Some(token) =>
      match decode(token)
      case None => Err(NotAuthorized)
      case Some(id) =>
        match UserIndex(users, id)
        case None => Err(NotFound("User not found"))
        case Some(i) =>
          if !users[i].isActive then Err(Forbidden("User account is deactivated"))
          else Ok(users[i])
  }

  /** A deactivated account is shut out of every protected route. */
  lemma DeactivatedCannotPass(header: Option<string>, decode: string -> Option<Id>, users: seq<U.User>, i: nat)
    requires i < |users| && !users[i].isActive
    requires forall j :: 0 <= j < |users| && j != i ==> users[j].id != users[i].id
    ensures Protect(header, decode, users).Ok? ==> Protect(header, decode, users).value.id != users[i].id
  {
    var r := Protect(header, decode, users);
    if r.Ok? {
      var id := decode(ExtractToken(header).value).value;
      var k := UserIndex(users, id).value;
      assert users[k].isActive;
    }
  }

  /** `authorize(...roles)`: the caller's role must be one of `roles`. */
  function Authorize(roles: seq<U.Role>, user: U.User): (r: Outcome)
    ensures r.Pass? <==> user.role in roles
    ensures r.Fail? ==> r.failure.Forbidden?
  {
    if user.role in roles then Pass
    else Fail(Forbidden("User role '" + U.RoleName(user.role) + "' is not authorized to access this route"))
  }

  /** The owner fields of a stored document: `seller` on listings, `user` on
      documents that have one. */
  datatype Owned = Owned(seller: Option<Id>, user: Option<Id>)

  /** Every owner field the document has names the caller. */
  predicate Owns(res: Owned, caller: Id) {
    (res.seller.None? || res.seller.value == caller) && (res.user.None? || res.user.value == caller)
  }

  /** `checkOwnership(model)` on the document found, if any. */
  function CheckOwnership(resource: Option<Owned>, caller: U.User): (r: Outcome)
    ensures resource.None? ==> r == Fail(NotFound("Resource not found"))
    ensures r.Fail? && resource.Some? ==> r.failure.Forbidden?
    ensures r.Pass? <==> resource.Some? && (caller.role == U.Admin || Owns(resource.value, caller.id))
  {
    match resource
    case None => Fail(NotFound("Resource not found"))
    case Some(res) =>
      if caller.role == U.Admin then Pass
      else if res.seller.Some? && res.seller.value != caller.id then Fail(Forbidden("Not authorized to access this resource"))
      else if res.user.Some? && res.user.value != caller.id then Fail(Forbidden("Not authorized to access this resource"))
      else Pass
  }

  /** `Listing.findById(id)` as `checkOwnership` sees it: a listing has a seller and no user. */
  function ListingResource(listings: seq<L.Listing>, id: Id): (r: Option<Owned>)
    ensures r.None? <==> ListingIndex(listings, id).None?
    ensures r.Some? ==> r.value == Owned(Some(listings[ListingIndex(listings, id).value].seller), None)
  {
    match ListingIndex(listings, id)
    case None => None
    case Some(i) => Some(Owned(Some(listings[i].seller), None))
  }

  /** `protect, checkOwnership(Listing)` in front of `PUT` and `DELETE /api/listings/:id`. */
  function ListingWriteGuard(header: Option<string>, decode: string -> Option<Id>, users: seq<U.User>,
                             listings: seq<L.Listing>, id: Id): (r: Result<U.User>)
    ensures r.Ok? <==> && Protect(header, decode, users).Ok?
                       && ListingIndex(listings, id).Some?
                       && (Protect(header, decode, users).value.role == U.Admin ||
                           listings[ListingIndex(listings, id).value].seller == Protect(header, decode, users).value.id)
    ensures r.Ok? ==> r == Protect(header, decode, users)
    ensures Protect(header, decode, users).Err? ==> r == Protect(header, decode, users)
  {
    match Protect(header, decode, users)
    case Err(f) => Err(f)
    case Ok(user) =>
      match CheckOwnership(ListingResource(listings, id), user)
      case Fail(f) => Err(f)
      case Pass => Ok(user)
  }

  /** A missing listing is 404 even for an admin: the lookup comes before the
      admin bypass, and both come after authentication. */
  lemma MissingListingIsNotFound(header: Option<string>, decode: string -> Option<Id>, users: seq<U.User>,
                                 listings: seq<L.Listing>, id: Id)
    requires Protect(header, decode, users).Ok? && ListingIndex(listings, id).None?
    ensures ListingWriteGuard(header, decode, users, listings, id) == Err(NotFound("Resource not found"))
  {
  }

  /** `router.use(protect)` then `router.use(authorize('admin'))` in front of every admin route. */
  function AdminGuard(header: Option<string>, decode: string -> Option<Id>, users: seq<U.User>): (r: Result<U.User>)
    ensures r.Ok? <==> Protect(header, decode, users).Ok? && Protect(header, decode, users).value.role == U.Admin
    ensures r.Ok? ==> r.value in users && r.value.isActive && r.value.role == U.Admin
    ensures Protect(header, decode, users).Ok? && r.Err? ==> r.failure.Forbidden?
  {
    match Protect(header, decode, users)
    case Err(f) => Err(f)
    case Ok(user) =>
      match Authorize([U.Admin], user)
      case Fail(f) => Err(f)
      case Pass => Ok(user)
  }
}

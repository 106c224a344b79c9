/** The user endpoints (backend/controllers/usersController.js): a public
    profile with its listing count, a seller's listings, and replacing the
    caller's avatar. */
module UsersController {

  import opened Common
  import opened Text
  import opened Query
  import L = ListingModel
  import U = UserModel
  import opened Database

  /** A user as `getUser` returns it, with the `listingsCount` virtual. */
  datatype Profile = Profile(user: U.User, listingsCount: nat)

  function SellerIs(id: Id): L.Listing -> bool {
    (l: L.Listing) => l.seller == id
  }

  /** `getUser`: the user with that id and how many listings name them as seller. */
  function GetUser(users: seq<U.User>, listings: seq<L.Listing>, id: Id): (r: Result<Profile>)
    ensures r.Ok? <==> exists i :: 0 <= i < |users| && users[i].id == id
    ensures r.Err? ==> r.failure == NotFound("User not found")
    ensures r.Ok? ==> r.value.user in users && r.value.user.id == id
    ensures r.Ok? ==> r.value.listingsCount == CountWhere(listings, SellerIs(id))
  {
    match UserIndex(users, id)
    case None => Err(NotFound("User not found"))
    case Some(i) => Ok(Profile(users[i], CountWhere(listings, SellerIs(id))))
  }

  const UserListingsLimit := 12

  /** The filter of `getUserListings`: that seller, and the status parameter
      (default "active") compared verbatim. Nothing depends on who asks. */
  predicate SellerListingMatches(seller: Id, status: Option<string>, l: L.Listing) {
    l.seller == seller && L.StatusName(l.status) == Or(status, "active")
  }

  function SellerListingFilter(seller: Id, status: Option<string>): L.Listing -> bool {
    (l: L.Listing) => SellerListingMatches(seller, status, l)
  }

  /** `getUserListings`: a newest-first page of one seller's listings. */
  function GetUserListings(listings: seq<L.Listing>, seller: Id, page: Option<int>, limit: Option<int>, status: Option<string>): (r: Result<Counted<L.Listing>>)
    ensures r.Err? <==> Skip(Or(page, 1), Or(limit, UserListingsLimit)) < 0
    ensures r.Ok? ==> r.value.total == CountWhere(listings, SellerListingFilter(seller, status))
    ensures r.Ok? ==> forall i :: 0 <= i < |r.value.data| ==> r.value.data[i] in listings && r.value.data[i].seller == seller
    ensures r.Ok? && status.None? ==> forall i :: 0 <= i < |r.value.data| ==> r.value.data[i].status == L.Active
    ensures r.Ok? && status.Some? ==> forall i :: 0 <= i < |r.value.data| ==> L.StatusName(r.value.data[i].status) == status.value
    ensures r.Ok? ==> SortedDesc(r.value.data, L.CreatedAt)
    ensures r.Ok? && Or(limit, UserListingsLimit) != 0 ==> r.value.count <= Abs(Or(limit, UserListingsLimit))
    ensures r.Ok? ==> FindPage(listings, SellerListingFilter(seller, status), L.CreatedAt, Or(page, 1), Or(limit, UserListingsLimit)) == r
  {
    var found := FindPage(listings, SellerListingFilter(seller, status), L.CreatedAt, Or(page, 1), Or(limit, UserListingsLimit));
    if found.Ok? then
      SellerPageFacts(found.value.data, seller, status);
      found
    else found
  }

  /** What the filter of `getUserListings` says of each listing it keeps. */
  lemma SellerPageFacts(data: seq<L.Listing>, seller: Id, status: Option<string>)
    requires forall i :: 0 <= i < |data| ==> SellerListingFilter(seller, status)(data[i])
    ensures forall i :: 0 <= i < |data| ==> data[i].seller == seller
    ensures status.None? ==> forall i :: 0 <= i < |data| ==> data[i].status == L.Active
    ensures status.Some? ==> forall i :: 0 <= i < |data| ==> L.StatusName(data[i].status) == status.value
  {
    forall i | 0 <= i < |data|
      ensures data[i].seller == seller
      ensures status.None? ==> data[i].status == L.Active
    {
      assert SellerListingMatches(seller, status, data[i]);
      if status.None? {
        assert L.StatusName(data[i].status) == "active";
      }
    }
  }

  /** `arr.slice(-n)`: the last `n` elements, or all of them when there are
      fewer; `slice(-0)` is `slice(0)`, the whole array. */
  function LastN(parts: seq<string>, n: nat): (r: seq<string>)
    ensures |r| == if n == 0 || |parts| <= n then |parts| else n
    ensures r == parts[|parts| - |r|..]
  {
    if n == 0 || |parts| <= n then parts else parts[|parts| - n..]
  }

  /** The public id recovered from an image URL from its last `segments`
      '/'-separated pieces, cut at the first '.'. */
  function PublicIdFromUrl(url: string, segments: nat): (r: string)
    ensures '.' !in r
    ensures StartsWith(Join(LastN(Split(url, '/'), segments), '/'), r)
  {
    SplitFirstIsPrefix(Join(LastN(Split(url, '/'), segments), '/'), '.');
    Split(Join(LastN(Split(url, '/'), segments), '/'), '.')[0]
  }

  /** The derivation as the handler writes it: the last two pieces. */
  function AvatarPublicIdAsWritten(url: string): string {
    PublicIdFromUrl(url, 2)
  }

  /** The folder the upload helper stores avatars under: `avatars` inside the
      application's root folder. */
  const RootFolder := "ethiopia-market"
  const AvatarsFolder := "avatars"
  const AvatarFolder := RootFolder + "/" + AvatarsFolder

  lemma FolderNames()
    ensures '/' !in RootFolder && '.' !in RootFolder
    ensures '/' !in AvatarsFolder && '.' !in AvatarsFolder
  {
  }

  /** The URL of an avatar named `name` with extension `ext` in the avatar folder, behind any prefix. */
  function StoredImageUrl(prefix: string, name: string, ext: string): string {
    prefix + "/" + RootFolder + "/" + AvatarsFolder + "/" + name + "." + ext
  }

  lemma StoredImageUrlPieces(prefix: string, name: string, ext: string)
    requires '/' !in name && '/' !in ext
    ensures var parts := Split(StoredImageUrl(prefix, name, ext), '/');
      |parts| >= 4 && parts[|parts| - 3..] == [RootFolder, AvatarsFolder, name + "." + ext]
  {
    FolderNames();
    var tail := name + "." + ext;
    assert '/' !in tail;
    var a := prefix + "/" + RootFolder;
    var b := a + "/" + AvatarsFolder;
    assert StoredImageUrl(prefix, name, ext) == b + ['/'] + tail;
    SplitPiece(b, tail);
    SplitPiece(a, AvatarsFolder);
    SplitPiece(prefix, RootFolder);
    var parts := Split(StoredImageUrl(prefix, name, ext), '/');
    assert parts == Split(prefix, '/') + [RootFolder] + [AvatarsFolder] + [tail];
  }

  /** Splitting after a last piece without separators appends that piece. */
  lemma SplitPiece(a: string, piece: string)
    requires '/' !in piece
    ensures Split(a + "/" + piece, '/') == Split(a, '/') + [piece]
  {
    SplitWithoutSeparator(piece, '/');
    SplitAppend(a, piece, '/');
    assert a + "/" + piece == a + ['/'] + piece;
  }

  /** Cutting `folder/name.ext` at the first '.' gives `folder/name`. */
  lemma CutAtDot(head: string, ext: string)
    requires '.' !in head
    ensures Split(head + "." + ext, '.')[0] == head
  {
    SplitWithoutSeparator(head, '.');
    SplitAppend(head, ext, '.');
  }

  lemma JoinTwo(a: string, b: string)
    ensures Join([a, b], '/') == a + "/" + b
  {
    assert [a, b][1..] == [b];
  }

  lemma JoinThree(a: string, b: string, c: string)
    ensures Join([a, b, c], '/') == a + "/" + b + "/" + c
  {
    assert [a, b, c][1..] == [b, c];
    JoinTwo(b, c);
  }

  /** The handler's derivation loses the outer folder: for an avatar stored
      as `ethiopia-market/avatars/name`, it asks to delete `avatars/name`,
      which names no stored image. */
  lemma AsWrittenMissesFolder(prefix: string, name: string, ext: string)
    requires '/' !in name && '.' !in name && '/' !in ext
    ensures AvatarPublicIdAsWritten(StoredImageUrl(prefix, name, ext)) == AvatarsFolder + "/" + name
    ensures AvatarPublicIdAsWritten(StoredImageUrl(prefix, name, ext)) != AvatarFolder + "/" + name
  {
    StoredImageUrlPieces(prefix, name, ext);
    FolderNames();
    var parts := Split(StoredImageUrl(prefix, name, ext), '/');
    assert LastN(parts, 2) == [AvatarsFolder, name + "." + ext];
    JoinTwo(AvatarsFolder, name + "." + ext);
    var head := AvatarsFolder + "/" + name;
    assert '.' !in head;
    CutAtDot(head, ext);
    assert AvatarsFolder + "/" + (name + "." + ext) == head + "." + ext;
    assert |head| < |AvatarFolder + "/" + name|;
  }

  /** The derivation the handler intends: the last three pieces, which hold
      the folder the upload helper stores avatars under. */
  function AvatarPublicId(url: string): string {
    PublicIdFromUrl(url, 3)
  }

  /** For an avatar stored as `ethiopia-market/avatars/name`, the corrected
      derivation recovers exactly that public id. */
  lemma AvatarPublicIdRecovers(prefix: string, name: string, ext: string)
    requires '/' !in name && '.' !in name && '/' !in ext
    ensures AvatarPublicId(StoredImageUrl(prefix, name, ext)) == AvatarFolder + "/" + name
  {
    StoredImageUrlPieces(prefix, name, ext);
    FolderNames();
    var parts := Split(StoredImageUrl(prefix, name, ext), '/');
    assert LastN(parts, 3) == [RootFolder, AvatarsFolder, name + "." + ext];
    JoinThree(RootFolder, AvatarsFolder, name + "." + ext);
    var head := AvatarFolder + "/" + name;
    assert '.' !in head;
    CutAtDot(head, ext);
    assert RootFolder + "/" + AvatarsFolder + "/" + (name + "." + ext) == head + "." + ext;
  }

  /** `updateAvatar`: no avatar in the body is a 400 and changes nothing;
      otherwise the old avatar, if any, is sent for deletion and the caller's
      avatar becomes the uploaded image's URL. */
  method UpdateAvatar(db: Db, caller: Id, avatar: Option<string>, upload: string -> L.Image) returns (r: Result<U.User>, deleted: Option<string>)
    requires db.Valid()
    modifies db`users
    ensures db.Valid()
    ensures !Truthy(avatar) ==>
      r == Err(BadRequest("Please provide an avatar image")) && deleted.None? && db.users == old(db.users)
    ensures Truthy(avatar) && UserIndex(old(db.users), caller).None? ==>
      r.Err? && r.failure.ServerError? && deleted.None? && db.users == old(db.users)
    ensures Truthy(avatar) && UserIndex(old(db.users), caller).Some? ==>
      var i := UserIndex(old(db.users), caller).value;
      var u := old(db.users)[i];
      && deleted == (if Truthy(u.avatar) then Some(AvatarPublicIdAsWritten(u.avatar.value)) else None)
      && r == Ok(u.(avatar := Some(upload(avatar.value).url)))
      && db.users == old(db.users)[i := r.value]
  {
    if !Truthy(avatar) {
      r, deleted := Err(BadRequest("Please provide an avatar image")), None;
      return;
    }
    match UserIndex(db.users, caller)
    case None =>
      r, deleted := Err(ServerError("Cannot read properties of null")), None;
    case Some(i) =>
      var u := db.users[i];
      deleted := if Truthy(u.avatar) then Some(AvatarPublicIdAsWritten(u.avatar.value)) else None;
      var updated := u.(avatar := Some(upload(avatar.value).url));
      db.ReplaceUser(i, updated);
      r := Ok(updated);
  }
}

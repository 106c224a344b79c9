/** The admin endpoints (backend/controllers/adminController.js): the
    dashboard counts, the moderation queue, approve and reject, the user list,
    and deactivating or reactivating a user. None of them checks the current
    state of what it changes. */
module AdminController {

  import opened Common
  import opened Query
  import L = ListingModel
  import U = UserModel
  import M = MessageModel
  import opened Database

  function HasStatus(st: L.Status): L.Listing -> bool {
    (l: L.Listing) => l.status == st
  }

  /** The `$match` and `$group` key of the category breakdown. */
  function ActiveIn(c: L.Category): L.Listing -> bool {
    (l: L.Listing) => l.status == L.Active && l.category == c
  }

  const AllCategories: seq<L.Category> := [
    L.Electronics, L.Vehicles, L.RealEstate, L.Fashion, L.Home, L.Services, L.Jobs, L.OtherCategory]

  lemma AllCategoriesListed()
    ensures forall c :: c in AllCategories
  {
    forall c: L.Category ensures c in AllCategories {
      match c
      case Electronics => assert AllCategories[0] == c;
      case Vehicles => assert AllCategories[1] == c;
      case RealEstate => assert AllCategories[2] == c;
      case Fashion => assert AllCategories[3] == c;
      case Home => assert AllCategories[4] == c;
      case Services => assert AllCategories[5] == c;
      case Jobs => assert AllCategories[6] == c;
      case OtherCategory => assert AllCategories[7] == c;
    }
  }

  const SevenDaysMs := 7 * DayMs

  datatype Stats = Stats(
    totalUsers: nat,
    newUsers: nat,
    totalListings: nat,
    activeListings: nat,
    pendingListings: nat,
    newListings: nat,
    byCategory: map<L.Category, nat>,
    totalMessages: nat)

  /** `getStats`: the collection counts, the documents created in the last
      seven days, and the active listings grouped by category (a category
      without active listings has no group). */
  function GetStats(users: seq<U.User>, listings: seq<L.Listing>, messages: seq<M.Message>, now: int): (r: Stats)
    ensures r.totalUsers == |users| && r.totalListings == |listings| && r.totalMessages == |messages|
    ensures r.activeListings == CountWhere(listings, HasStatus(L.Active))
    ensures r.pendingListings == CountWhere(listings, HasStatus(L.Pending))
    ensures r.activeListings + r.pendingListings <= r.totalListings
    ensures r.newUsers == CountWhere(users, (u: U.User) => u.createdAt >= now - SevenDaysMs) <= r.totalUsers
    ensures r.newListings == CountWhere(listings, (l: L.Listing) => l.createdAt >= now - SevenDaysMs) <= r.totalListings
    ensures forall c :: c in r.byCategory <==> CountWhere(listings, ActiveIn(c)) > 0
    ensures forall c :: c in r.byCategory ==> r.byCategory[c] == CountWhere(listings, ActiveIn(c)) <= r.activeListings
  {
    var active := CountWhere(listings, HasStatus(L.Active));
    var pending := CountWhere(listings, HasStatus(L.Pending));
    CountWhereDisjoint(listings, HasStatus(L.Active), HasStatus(L.Pending));
    var byCategory := map c | c in AllCategories && CountWhere(listings, ActiveIn(c)) > 0 :: CountWhere(listings, ActiveIn(c));
    forall c ensures CountWhere(listings, ActiveIn(c)) <= active {
      CountWhereMonotone(listings, ActiveIn(c), HasStatus(L.Active));
    }
    AllCategoriesListed();
    Stats(
      |users|, CountWhere(users, (u: U.User) => u.createdAt >= now - SevenDaysMs),
      |listings|, active, pending, CountWhere(listings, (l: L.Listing) => l.createdAt >= now - SevenDaysMs),
      byCategory, |messages|)
  }

  /** How often a category occurs in a list of categories. */
  function Occurrences(cats: seq<L.Category>, c: L.Category): nat
    decreases |cats|
  {
    if cats == [] then 0 else (if cats[0] == c then 1 else 0) + Occurrences(cats[1..], c)
  }

  /** The sum of the category groups' counts over some categories. */
  function SumCounts(s: seq<L.Listing>, cats: seq<L.Category>): nat
    decreases |cats|
  {
    if cats == [] then 0 else CountWhere(s, ActiveIn(cats[0])) + SumCounts(s, cats[1..])
  }

  lemma {:induction false} SumCountsCons(l: L.Listing, rest: seq<L.Listing>, cats: seq<L.Category>)
    ensures SumCounts([l] + rest, cats) == SumCounts(rest, cats) + (if l.status == L.Active then Occurrences(cats, l.category) else 0)
    decreases |cats|
  {
    if cats != [] {
      SumCountsCons(l, rest, cats[1..]);
      assert ([l] + rest)[1..] == rest;
    }
  }

  lemma {:induction false} OccurrencesAbsent(cats: seq<L.Category>, c: L.Category)
    requires c !in cats
    ensures Occurrences(cats, c) == 0
    decreases |cats|
  {
    if cats != [] {
      OccurrencesAbsent(cats[1..], c);
    }
  }

  /** A category found at exactly one index occurs once. */
  lemma {:induction false} OccursOnce(cats: seq<L.Category>, i: nat)
    requires i < |cats|
    requires forall j :: 0 <= j < |cats| && j != i ==> cats[j] != cats[i]
    ensures Occurrences(cats, cats[i]) == 1
    decreases i
  {
    if i == 0 {
      assert cats[0] !in cats[1..];
      OccurrencesAbsent(cats[1..], cats[0]);
    } else {
      OccursOnce(cats[1..], i - 1);
    }
  }

  /** Every category heads exactly one group. */
  lemma OneGroupEach(c: L.Category)
    ensures Occurrences(AllCategories, c) == 1
  {
    var i := match c
      case Electronics => 0 case Vehicles => 1 case RealEstate => 2 case Fashion => 3
      case Home => 4 case Services => 5 case Jobs => 6 case OtherCategory => 7;
    assert AllCategories[i] == c;
    OccursOnce(AllCategories, i);
  }

  lemma {:induction false} SumCountsEmpty(cats: seq<L.Category>)
    ensures SumCounts([], cats) == 0
    decreases |cats|
  {
    if cats != [] {
      SumCountsEmpty(cats[1..]);
    }
  }

  /** Over categories that each occur once, the groups' counts add up to the
      number of active listings. */
  lemma {:induction false} SumCountsPartition(s: seq<L.Listing>, cats: seq<L.Category>)
    requires forall c :: Occurrences(cats, c) == 1
    ensures SumCounts(s, cats) == CountWhere(s, HasStatus(L.Active))
    decreases |s|
  {
    if s == [] {
      SumCountsEmpty(cats);
    } else {
      var rest := s[1..];
      SumCountsPartition(rest, cats);
      assert [s[0]] + rest == s;
      SumCountsCons(s[0], rest, cats);
      assert Occurrences(cats, s[0].category) == 1;
      assert CountWhere(s, HasStatus(L.Active)) == (if s[0].status == L.Active then 1 else 0) + CountWhere(rest, HasStatus(L.Active));
    }
  }

  /** The groups of the breakdown partition the active listings: their counts
      add up to the number of active listings. */
  lemma ByCategoryTotal(s: seq<L.Listing>)
    ensures SumCounts(s, AllCategories) == CountWhere(s, HasStatus(L.Active))
  {
    forall c ensures Occurrences(AllCategories, c) == 1 {
      OneGroupEach(c);
    }
    SumCountsPartition(s, AllCategories);
  }

  const PendingLimit := 20

  /** `getPendingListings`: the moderation queue, newest first, twenty per page. */
  function GetPendingListings(listings: seq<L.Listing>, page: Option<int>, limit: Option<int>): (r: Result<Counted<L.Listing>>)
    ensures r.Err? <==> Skip(Or(page, 1), Or(limit, PendingLimit)) < 0
    ensures r.Ok? ==> r.value.total == CountWhere(listings, HasStatus(L.Pending))
    ensures r.Ok? ==> forall i :: 0 <= i < |r.value.data| ==> r.value.data[i] in listings && r.value.data[i].status == L.Pending
    ensures r.Ok? ==> SortedDesc(r.value.data, L.CreatedAt)
    ensures r.Ok? && Or(limit, PendingLimit) != 0 ==> r.value.count <= Abs(Or(limit, PendingLimit))
    ensures r.Ok? ==> r.value.count == |r.value.data|
    ensures r.Ok? ==> FindPage(listings, HasStatus(L.Pending), L.CreatedAt, Or(page, 1), Or(limit, PendingLimit)) == r
  {
    var found := FindPage(listings, HasStatus(L.Pending), L.CreatedAt, Or(page, 1), Or(limit, PendingLimit));
    if found.Ok? then
      assert forall i :: 0 <= i < |found.value.data| ==> HasStatus(L.Pending)(found.value.data[i]);
      found
    else found
  }

  /** Setting the status of one stored listing. */
  method SetListingStatus(db: Db, id: Id, st: L.Status) returns (r: Result<L.Listing>)
    requires db.Valid()
    modifies db`listings
    ensures db.Valid()
    ensures ListingIndex(old(db.listings), id).None? ==>
      r == Err(NotFound("Listing not found")) && db.listings == old(db.listings)
    ensures ListingIndex(old(db.listings), id).Some? ==>
      var i := ListingIndex(old(db.listings), id).value;
      && r == Ok(old(db.listings)[i].(status := st))
      && db.listings == old(db.listings)[i := r.value]
  {
    match ListingIndex(db.listings, id)
    case None =>
      r := Err(NotFound("Listing not found"));
    case Some(i) =>
      var l := db.listings[i].(status := st);
      ListingsReplace(db.listings, db.nextId, i, l);
      db.listings := db.listings[i := l];
      r := Ok(l);
  }

  /** `approveListing`: any stored listing becomes active, whatever its status was. */
  method ApproveListing(db: Db, id: Id) returns (r: Result<L.Listing>)
    requires db.Valid()
    modifies db`listings
    ensures db.Valid()
    ensures ListingIndex(old(db.listings), id).None? ==>
      r == Err(NotFound("Listing not found")) && db.listings == old(db.listings)
    ensures ListingIndex(old(db.listings), id).Some? ==>
      var i := ListingIndex(old(db.listings), id).value;
      && r == Ok(old(db.listings)[i].(status := L.Active))
      && db.listings == old(db.listings)[i := r.value]
  {
    r := SetListingStatus(db, id, L.Active);
  }

  /** `rejectListing`: any stored listing becomes rejected; the reason is only
      written to the log, never to the listing. */
  method RejectListing(db: Db, id: Id, reason: Option<string>) returns (r: Result<L.Listing>)
    requires db.Valid()
    modifies db`listings
    ensures db.Valid()
    ensures ListingIndex(old(db.listings), id).None? ==>
      r == Err(NotFound("Listing not found")) && db.listings == old(db.listings)
    ensures ListingIndex(old(db.listings), id).Some? ==>
      var i := ListingIndex(old(db.listings), id).value;
      && r == Ok(old(db.listings)[i].(status := L.Rejected))
      && db.listings == old(db.listings)[i := r.value]
  {
    r := SetListingStatus(db, id, L.Rejected);
  }

  /** The user filter: a non-empty `role` is compared with the role's name, and
      a present `isActive` means active exactly when it is the string "true". */
  predicate UserMatches(role: Option<string>, isActive: Option<string>, u: U.User) {
    && (Truthy(role) ==> U.RoleName(u.role) == role.value)
    && (isActive.Some? ==> u.isActive == (isActive.value == "true"))
  }

  function UserFilter(role: Option<string>, isActive: Option<string>): U.User -> bool {
    (u: U.User) => UserMatches(role, isActive, u)
  }

  /** Any `isActive` string other than "true" selects the inactive users. */
  lemma IsActiveFilterMeans(role: Option<string>, flag: string, u: U.User)
    ensures flag == "true" ==> (UserMatches(role, Some(flag), u) ==> u.isActive)
    ensures flag != "true" ==> (UserMatches(role, Some(flag), u) ==> !u.isActive)
    ensures UserMatches(role, Some(flag), u) <==> UserMatches(role, None, u) && u.isActive == (flag == "true")
  {
  }

  const UsersLimit := 20

  /** `getAllUsers`: a newest-first page of the users passing the filter, twenty per page. */
  function GetAllUsers(users: seq<U.User>, page: Option<int>, limit: Option<int>, role: Option<string>, isActive: Option<string>): (r: Result<Counted<U.User>>)
    ensures r.Err? <==> Skip(Or(page, 1), Or(limit, UsersLimit)) < 0
    ensures r.Ok? ==> r.value.total == CountWhere(users, UserFilter(role, isActive))
    ensures r.Ok? ==> forall i :: 0 <= i < |r.value.data| ==> r.value.data[i] in users && UserMatches(role, isActive, r.value.data[i])
    ensures r.Ok? ==> SortedDesc(r.value.data, U.JoinedAt)
    ensures r.Ok? && Or(limit, UsersLimit) != 0 ==> r.value.count <= Abs(Or(limit, UsersLimit))
    ensures r.Ok? ==> r.value.count == |r.value.data|
    ensures r.Ok? ==> FindPage(users, UserFilter(role, isActive), U.JoinedAt, Or(page, 1), Or(limit, UsersLimit)) == r
  {
    var found := FindPage(users, UserFilter(role, isActive), U.JoinedAt, Or(page, 1), Or(limit, UsersLimit));
    if found.Ok? then
      assert forall i :: 0 <= i < |found.value.data| ==> UserFilter(role, isActive)(found.value.data[i]);
      found
    else found
  }

  /** The `updateMany` of a deactivation: every listing of that seller expires. */
  function ExpireListingsOf(s: seq<L.Listing>, seller: Id): (r: seq<L.Listing>)
    ensures |r| == |s|
    ensures forall k :: 0 <= k < |s| ==> r[k] == (if s[k].seller == seller then s[k].(status := L.Expired) else s[k])
  {
    seq(|s|, k requires 0 <= k < |s| => if s[k].seller == seller then s[k].(status := L.Expired) else s[k])
  }

  /** After the expiry no listing of that seller is active, so none of them
      reaches the default feed; other sellers' listings are untouched. */
  lemma ExpireListingsOfMeans(s: seq<L.Listing>, seller: Id)
    ensures forall k :: 0 <= k < |s| && s[k].seller == seller ==> ExpireListingsOf(s, seller)[k].status == L.Expired
    ensures CountWhere(ExpireListingsOf(s, seller), (l: L.Listing) => l.seller == seller && l.status == L.Active) == 0
    ensures forall k :: 0 <= k < |s| && s[k].seller != seller ==> ExpireListingsOf(s, seller)[k] == s[k]
  {
    var r := ExpireListingsOf(s, seller);
    var p := (l: L.Listing) => l.seller == seller && l.status == L.Active;
    FilterNone(r, p);
  }

  lemma ExpireListingsOfOk(s: seq<L.Listing>, bound: nat, seller: Id)
    requires ListingsOk(s, bound)
    ensures ListingsOk(ExpireListingsOf(s, seller), bound)
  {
  }

  /** `deactivateUser`: the user is marked inactive and all of that user's
      listings expire. */
  method DeactivateUser(db: Db, id: Id) returns (r: Result<U.User>)
    requires db.Valid()
    modifies db`users, db`listings
    ensures db.Valid()
    ensures UserIndex(old(db.users), id).None? ==>
      r == Err(NotFound("User not found")) && db.users == old(db.users) && db.listings == old(db.listings)
    ensures UserIndex(old(db.users), id).Some? ==>
      var i := UserIndex(old(db.users), id).value;
      && r == Ok(old(db.users)[i].(isActive := false))
      && db.users == old(db.users)[i := r.value]
      && db.listings == ExpireListingsOf(old(db.listings), id)
  {
    match UserIndex(db.users, id)
    case None =>
      r := Err(NotFound("User not found"));
    case Some(i) =>
      var u := db.users[i].(isActive := false);
      db.ReplaceUser(i, u);
      ExpireListingsOfOk(db.listings, db.nextId, id);
      db.listings := ExpireListingsOf(db.listings, id);
      r := Ok(u);
  }

  /** `activateUser`: the user is active again; the expired listings stay expired. */
  method ActivateUser(db: Db, id: Id) returns (r: Result<U.User>)
    requires db.Valid()
    modifies db`users
    ensures db.Valid()
    ensures UserIndex(old(db.users), id).None? ==>
      r == Err(NotFound("User not found")) && db.users == old(db.users)
    ensures UserIndex(old(db.users), id).Some? ==>
      var i := UserIndex(old(db.users), id).value;
      && r == Ok(old(db.users)[i].(isActive := true))
      && db.users == old(db.users)[i := r.value]
  {
    match UserIndex(db.users, id)
    case None =>
      r := Err(NotFound("User not found"));
    case Some(i) =>
      var u := db.users[i].(isActive := true);
      db.ReplaceUser(i, u);
      r := Ok(u);
  }
}

/** The frontend's in-memory stand-in for the backend (`api` in the mock module):
    a list of listing objects changed by prepending and by merging in place, and
    a table of users. JavaScript objects are maps from property names to values,
    so that `{ ...a, ...b }` is the map union `a + b`. Thrown errors are `Err`. */
module MockApi {

  import opened Common
  import opened Text
  import Query

  /** A property value: a string, a number, or anything else (arrays, nested
      objects), which the mock never looks into. */
  datatype Value = Str(text: string) | Num(number: int) | Composite(tag: nat)

  type Obj = map<string, Value>

  /** `o[key] === text` */
  predicate HasText(o: Obj, key: string, text: string) {
    key in o && o[key] == Str(text)
  }

  /** `{ ...a, ...b }`: every property of `b`, and the properties of `a` that
      `b` does not have. */
  function Merge(a: Obj, b: Obj): (r: Obj)
    ensures r.Keys == a.Keys + b.Keys
    ensures forall k :: k in b ==> r[k] == b[k]
    ensures forall k :: k in a && k !in b ==> r[k] == a[k]
  {
    a + b
  }

  /** The filters `getListings` reads; each is used only when truthy. */
  datatype ListingFilters = ListingFilters(category: Option<string>, region: Option<string>, search: Option<string>)

  function InCategory(category: string): Obj -> bool {
    (l: Obj) => HasText(l, "category", category)
  }

  function InRegion(region: string): Obj -> bool {
    (l: Obj) => HasText(l, "region", region)
  }

  /** How `l.title.toLowerCase().includes(q) || l.shortDescription.toLowerCase().includes(q)`
      evaluates: `None` when it throws because a property read is not a string. */
  function SearchVerdict(l: Obj, q: string): Option<bool> {
    if !("title" in l && l["title"].Str?) then None
    else if Contains(Lower(l["title"].text), q) then Some(true)
    else if !("shortDescription" in l && l["shortDescription"].Str?) then None
    else Some(Contains(Lower(l["shortDescription"].text), q))
  }

  function SearchHit(q: string): Obj -> bool {
    (l: Obj) => SearchVerdict(l, q) == Some(true)
  }

  /** The listings that the category and region filters let through. */
  predicate Narrowed(f: ListingFilters, l: Obj) {
    && (Truthy(f.category) ==> InCategory(f.category.value)(l))
    && (Truthy(f.region) ==> InRegion(f.region.value)(l))
  }

  function NarrowedBy(f: ListingFilters): Obj -> bool {
    (l: Obj) => Narrowed(f, l)
  }

  /** All three filters at once: the reference `getListings` is proved against. */
  predicate Selected(f: ListingFilters, l: Obj) {
    && Narrowed(f, l)
    && (Truthy(f.search) ==> SearchHit(Lower(f.search.value))(l))
  }

  function SelectedBy(f: ListingFilters): Obj -> bool {
    (l: Obj) => Selected(f, l)
  }

  /** The category filter, then the region filter, is the one filter `Narrowed`. */
  lemma NarrowingSteps(s: seq<Obj>, f: ListingFilters)
    ensures var afterCategory := if Truthy(f.category) then Query.Filter(s, InCategory(f.category.value)) else s;
            var afterRegion := if Truthy(f.region) then Query.Filter(afterCategory, InRegion(f.region.value)) else afterCategory;
            afterRegion == Query.Filter(s, NarrowedBy(f))
  {
    if Truthy(f.category) && Truthy(f.region) {
      var c, g := InCategory(f.category.value), InRegion(f.region.value);
      Query.FilterFilter(s, c, g, NarrowedBy(f));
    } else if Truthy(f.category) {
      Query.FilterSame(s, InCategory(f.category.value), NarrowedBy(f));
    } else if Truthy(f.region) {
      Query.FilterSame(s, InRegion(f.region.value), NarrowedBy(f));
    } else {
      Query.FilterAll(s, NarrowedBy(f));
    }
  }

  /** `filter` with the search callback: throws on the first listing the callback
      throws on. */
  function SearchAll(s: seq<Obj>, q: string): (r: Result<seq<Obj>>)
    ensures r.Err? <==> exists i :: 0 <= i < |s| && SearchVerdict(s[i], q).None?
    ensures r.Ok? ==> r.value == Query.Filter(s, SearchHit(q))
    decreases |s|
  {
    if s == [] then Ok([])
    else match SearchVerdict(s[0], q)
      case None => Err(ServerError("TypeError"))
      case Some(hit) =>
        var rest := SearchAll(s[1..], q);
        if rest.Err? then
          var i :| 0 <= i < |s[1..]| && SearchVerdict(s[1..][i], q).None?;
          assert SearchVerdict(s[i + 1], q).None?;
          rest
        else
          assert forall i :: 1 <= i < |s| ==> s[i] == s[1..][i - 1];
          Ok((if hit then [s[0]] else []) + rest.value)
  }

  /** The search over the narrowed listings throws exactly when the callback
      throws on one of them, and otherwise selects by all three filters. */
  lemma SearchStep(s: seq<Obj>, f: ListingFilters)
    requires Truthy(f.search)
    ensures var r := SearchAll(Query.Filter(s, NarrowedBy(f)), Lower(f.search.value));
            && (r.Err? <==> exists l :: l in s && Narrowed(f, l) && SearchVerdict(l, Lower(f.search.value)).None?)
            && (r.Ok? ==> r.value == Query.Filter(s, SelectedBy(f)))
  {
    var q := Lower(f.search.value);
    var narrowed := Query.Filter(s, NarrowedBy(f));
    var r := SearchAll(narrowed, q);
    Query.FilterMembers(s, NarrowedBy(f));
    if r.Err? {
      var i :| 0 <= i < |narrowed| && SearchVerdict(narrowed[i], q).None?;
      assert narrowed[i] in s;
    } else {
      forall l | l in s && Narrowed(f, l)
        ensures SearchVerdict(l, q).Some?
      {
        assert l in narrowed;
        var i :| 0 <= i < |narrowed| && narrowed[i] == l;
      }
      Query.FilterFilter(s, NarrowedBy(f), SearchHit(q), SelectedBy(f));
    }
  }

  /** The search ignores case: a title holding the search text verbatim is a hit,
      whatever the short description. */
  lemma VerbatimTitleFound(f: ListingFilters, l: Obj)
    requires Narrowed(f, l) && Truthy(f.search)
    requires "title" in l && l["title"].Str? && Contains(l["title"].text, f.search.value)
    ensures Selected(f, l)
  {
    LowerKeepsContains(l["title"].text, f.search.value);
  }

  /** The response of `getListings`. */
  datatype ListingPage = ListingPage(data: seq<Obj>, total: nat)

  /** The listing `createListing` stores: `data` over a random id, then the fields
      the mock always sets itself. */
  function NewMockListing(data: Obj, randomId: string, now: string): (r: Obj)
    ensures HasText(r, "sellerId", "current-user") && HasText(r, "sellerName", "Current User")
    ensures HasText(r, "status", "active") && "views" in r && r["views"] == Num(0)
    ensures HasText(r, "createdAt", now)
    ensures "id" in r && r["id"] == (if "id" in data then data["id"] else Str(randomId))
    ensures forall k :: k in data && k !in Stamped ==> k in r && r[k] == data[k]
    ensures r.Keys == data.Keys + Stamped + {"id"}
  {
    Merge(Merge(map["id" := Str(randomId)], data),
          map["sellerId" := Str("current-user"), "sellerName" := Str("Current User"),
              "views" := Num(0), "createdAt" := Str(now), "status" := Str("active")])
  }

  /** The properties `createListing` overrides. */
  const Stamped: set<string> := {"sellerId", "sellerName", "views", "createdAt", "status"}

  function HasId(id: string): Obj -> bool {
    (l: Obj) => HasText(l, "id", id)
  }

  function BySeller(sellerId: string): Obj -> bool {
    (l: Obj) => HasText(l, "sellerId", sellerId)
  }

  /** A listing `createListing` prepends comes first among the current user's
      listings, ahead of the ones already there. */
  lemma CreatedListingFirst(listings: seq<Obj>, data: Obj, randomId: string, now: string)
    ensures var created := NewMockListing(data, randomId, now);
            Query.Filter([created] + listings, BySeller("current-user")) ==
              [created] + Query.Filter(listings, BySeller("current-user"))
  {
    var created := NewMockListing(data, randomId, now);
    Query.FilterAppend([created], listings, BySeller("current-user"));
  }

  class MockStore {
    var listings: seq<Obj>
    var users: map<string, Obj>

    /** The module's seed data. */
    constructor (seedListings: seq<Obj>, seedUsers: map<string, Obj>)
      ensures listings == seedListings && users == seedUsers
    {
      listings := seedListings;
      users := seedUsers;
    }

    /** `getListings`: a copy of the list narrowed by each truthy filter in turn;
        the search compares lower-cased text. No status filter is applied. */
    method GetListings(filters: ListingFilters) returns (r: Result<ListingPage>)
      ensures r.Ok? ==> r.value.total == |r.value.data|
      ensures r.Ok? ==> r.value.data == Query.Filter(listings, SelectedBy(filters))
      ensures r.Err? <==>
                && Truthy(filters.search)
                && exists l :: l in listings && Narrowed(filters, l) && SearchVerdict(l, Lower(filters.search.value)).None?
    {
      var filtered := listings;
      if Truthy(filters.category) {
        filtered := Query.Filter(filtered, InCategory(filters.category.value));
      }
      if Truthy(filters.region) {
        filtered := Query.Filter(filtered, InRegion(filters.region.value));
      }
      NarrowingSteps(listings, filters);
      if Truthy(filters.search) {
        var searched := SearchAll(filtered, Lower(filters.search.value));
        SearchStep(listings, filters);
        if searched.Err? {
          return Err(searched.failure);
        }
        filtered := searched.value;
      } else {
        Query.FilterSame(listings, NarrowedBy(filters), SelectedBy(filters));
      }
      r := Ok(ListingPage(filtered, |filtered|));
    }

    /** `getListingById`: the first listing with that id. */
    method GetListingById(id: string) returns (r: Result<Obj>)
      ensures r.Err? <==> forall i :: 0 <= i < |listings| ==> !HasText(listings[i], "id", id)
      ensures r.Err? ==> r.failure == NotFound("Listing not found")
      ensures r.Ok? ==> exists i :: 0 <= i < |listings| && listings[i] == r.value &&
                          HasText(r.value, "id", id) &&
                          forall j :: 0 <= j < i ==> !HasText(listings[j], "id", id)
    {
      var found := Query.IndexWhere(listings, HasId(id));
      if found.None? {
        return Err(NotFound("Listing not found"));
      }
      r := Ok(listings[found.value]);
    }

    /** `createListing`: the new listing goes to the front. */
    method CreateListing(data: Obj, randomId: string, now: string) returns (r: Obj)
      modifies this`listings
      ensures r == NewMockListing(data, randomId, now)
      ensures listings == [r] + old(listings)
    {
      r := NewMockListing(data, randomId, now);
      listings := [r] + listings;
    }

    /** `updateListing`: `data` merged into the first listing with that id, in place. */
    method UpdateListing(id: string, data: Obj) returns (r: Result<Obj>)
      modifies this`listings
      ensures match Query.IndexWhere(old(listings), HasId(id))
              case None => r == Err(NotFound("Listing not found")) && listings == old(listings)
              case Some(i) => && listings == old(listings)[i := Merge(old(listings)[i], data)]
                              && r == Ok(listings[i])
    {
      var index := Query.IndexWhere(listings, HasId(id));
      if index.None? {
        return Err(NotFound("Listing not found"));
      }
      listings := listings[index.value := Merge(listings[index.value], data)];
      r := Ok(listings[index.value]);
    }

    /** `sendMessage`: every message is acknowledged, and none is stored. */
    method SendMessage(messageData: Obj) returns (success: bool, message: string)
      ensures success && message == "Message sent successfully"
    {
      success, message := true, "Message sent successfully";
    }

    /** `sendOTP`: the acknowledgement names the number; no code exists. */
    method SendOtp(phoneNumber: string) returns (success: bool, message: string)
      ensures success && message == "OTP sent to " + phoneNumber
      ensures message[|"OTP sent to "|..] == phoneNumber
    {
      success, message := true, "OTP sent to " + phoneNumber;
    }

    /** `getUserById` */
    method GetUserById(id: string) returns (r: Result<Obj>)
      ensures id in users ==> r == Ok(users[id])
      ensures id !in users ==> r == Err(NotFound("User not found"))
    {
      if id !in users {
        return Err(NotFound("User not found"));
      }
      r := Ok(users[id]);
    }

    /** `getUserListings`: that seller's listings, in list order. */
    method GetUserListings(userId: string) returns (r: seq<Obj>)
      ensures r == Query.Filter(listings, BySeller(userId))
      ensures forall l :: l in r <==> l in listings && HasText(l, "sellerId", userId)
    {
      r := Query.Filter(listings, BySeller(userId));
      Query.FilterMembers(listings, BySeller(userId));
    }
  }
}

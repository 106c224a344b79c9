/** The listing endpoints (backend/controllers/listingsController.js): the public
    feed and detail reads, and create, update, delete and view counting on the
    store. Blob storage is the `upload` parameter and the list of public ids
    the handler asks the store to delete. */
module ListingsController {

  import opened Common
  import opened Text
  import opened Query
  import opened ListingModel
  import opened Database

  /** The `$text` operator: whether a search string matches a listing's title,
      short description and long description. */
  type TextSearch = (string, string, string, string) -> bool

  /** The query string of `GET /api/listings`; an absent parameter is `None`. */
  datatype FeedQuery = FeedQuery(
    category: Option<string>,
    region: Option<string>,
    search: Option<string>,
    status: Option<string>,
    page: Option<int>,
    limit: Option<int>,
    sort: Option<string>)

  datatype FeedPage = FeedPage(
    count: nat,
    total: nat,
    totalPages: Option<int>,
    currentPage: int,
    data: seq<Listing>)

  const FeedLimit := 12

  /** The feed's filter: the status (default "active") always, and category,
      region and text search only when their parameter is non-empty. */
  predicate FeedMatches(q: FeedQuery, search: TextSearch, l: Listing) {
    && StatusName(l.status) == Or(q.status, "active")
    && (Truthy(q.category) ==> CategoryName(l.category) == q.category.value)
    && (Truthy(q.region) ==> RegionName(l.region) == q.region.value)
    && (Truthy(q.search) ==> search(q.search.value, l.title, l.shortDescription, l.longDescription))
  }

  function FeedFilter(q: FeedQuery, search: TextSearch): Listing -> bool {
    l => FeedMatches(q, search, l)
  }

  /** A Mongoose sort string on one field: a leading `-` sorts descending. */
  datatype SortOrder = SortOrder(field: string, descending: bool)

  function ParseSort(sort: string): (o: SortOrder)
    ensures o.descending <==> |sort| > 0 && sort[0] == '-'
    ensures sort == (if o.descending then "-" else "") + o.field
  {
    if |sort| > 0 && sort[0] == '-' then SortOrder(sort[1..], true) else SortOrder(sort, false)
  }

  /** The numeric fields of a listing a sort can name, `_id` included (ids are
      handed out in insertion order). */
  function FieldValue(field: string, l: Listing): Option<int> {
    if field == "createdAt" then Some(l.createdAt)
    else if field == "views" then Some(l.views)
    else if field == "expiresAt" then Some(l.expiresAt)
    else if field == "_id" then Some(l.id)
    else None
  }

  /** `.sort(sort)` with the default `-createdAt`, as a key the matches are
      ordered by, greatest first: an ascending field is negated, and any other
      field leaves every listing tied. */
  function SortKey(sort: Option<string>): Listing -> int {
    var o := ParseSort(Or(sort, "-createdAt"));
    (l: Listing) =>
      match FieldValue(o.field, l)
      case None => 0
      case Some(v) => if o.descending then v else -v
  }

  /** Without a sort parameter the feed is newest first. */
  lemma DefaultSortNewestFirst(data: seq<Listing>)
    requires SortedDesc(data, SortKey(None))
    ensures SortedDesc(data, CreatedAt)
  {
    assert ParseSort("-createdAt") == SortOrder("createdAt", true);
    forall i, j | 0 <= i < j < |data| ensures data[i].createdAt >= data[j].createdAt {
      assert SortKey(None)(data[i]) >= SortKey(None)(data[j]);
    }
  }

  /** A page ordered by a sort string on a numeric field runs along that field,
      downwards after a `-` and upwards otherwise. */
  lemma SortedAlongField(data: seq<Listing>, sort: string, i: nat, j: nat)
    requires SortedDesc(data, SortKey(Some(sort))) && i < j < |data|
    requires FieldValue(ParseSort(sort).field, data[i]).Some?
    ensures var f := ParseSort(sort).field;
            if ParseSort(sort).descending then FieldValue(f, data[j]).value <= FieldValue(f, data[i]).value
            else FieldValue(f, data[i]).value <= FieldValue(f, data[j]).value
  {
    assert SortKey(Some(sort))(data[i]) >= SortKey(Some(sort))(data[j]);
  }

  /** `getListings`: one page of the matching listings, with the
      number of matches and of pages, in the order the `sort` parameter asks for. */
  function GetListings(listings: seq<Listing>, q: FeedQuery, search: TextSearch): (r: Result<FeedPage>)
    ensures r.Err? <==> Skip(Or(q.page, 1), Or(q.limit, FeedLimit)) < 0
    ensures r.Ok? ==> r.value.total == CountWhere(listings, FeedFilter(q, search))
    ensures r.Ok? ==> r.value.count == |r.value.data| <= r.value.total
    ensures r.Ok? && Or(q.limit, FeedLimit) != 0 ==> r.value.count <= Abs(Or(q.limit, FeedLimit))
    ensures r.Ok? ==> r.value.totalPages == TotalPages(r.value.total, Or(q.limit, FeedLimit))
    ensures r.Ok? ==> r.value.currentPage == Or(q.page, 1)
    ensures r.Ok? ==> SortedDesc(r.value.data, SortKey(q.sort))
    ensures r.Ok? && q.sort.None? ==> SortedDesc(r.value.data, CreatedAt)
    ensures r.Ok? ==> forall i :: 0 <= i < |r.value.data| ==> r.value.data[i] in listings && FeedMatches(q, search, r.value.data[i])
    ensures r.Ok? ==> FindPage(listings, FeedFilter(q, search), SortKey(q.sort), Or(q.page, 1), Or(q.limit, FeedLimit))
                      == Ok(Counted(r.value.count, r.value.total, r.value.data))
  {
    var page, limit := Or(q.page, 1), Or(q.limit, FeedLimit);
    var found := FindPage(listings, FeedFilter(q, search), SortKey(q.sort), page, limit);
    if found.Err? then Err(found.failure)
    else
      var c := found.value;
      assert forall i :: 0 <= i < |c.data| ==> FeedFilter(q, search)(c.data[i]);
      assert q.sort.None? ==> SortedDesc(c.data, CreatedAt) by {
        if q.sort.None? {
          DefaultSortNewestFirst(c.data);
        }
      }
      Ok(FeedPage(c.count, c.total, TotalPages(c.total, limit), page, c.data))
  }

  /** What a feed match is: with no status parameter only active listings
      match, an explicit status is compared verbatim, and a non-empty category
      or region must be the listing's own; absent filters impose nothing. */
  lemma FeedMatchesMeans(q: FeedQuery, search: TextSearch, l: Listing)
    ensures q.status.None? && FeedMatches(q, search, l) ==> l.status == Active
    ensures q.status.Some? && FeedMatches(q, search, l) ==> StatusName(l.status) == q.status.value
    ensures Truthy(q.category) && FeedMatches(q, search, l) ==> CategoryName(l.category) == q.category.value
    ensures Truthy(q.region) && FeedMatches(q, search, l) ==> RegionName(l.region) == q.region.value
    ensures q.status.None? && !Truthy(q.category) && !Truthy(q.region) && !Truthy(q.search) ==>
      (FeedMatches(q, search, l) <==> l.status == Active)
  {
    NamesInjective();
  }

  /** `getListing`: the listing with that id, whatever its status. */
  function GetListing(listings: seq<Listing>, id: Id): (r: Result<Listing>)
    ensures r.Ok? <==> exists i :: 0 <= i < |listings| && listings[i].id == id
    ensures r.Ok? ==> r.value in listings && r.value.id == id
    ensures r.Err? ==> r.failure == NotFound("Listing not found")
  {
    match ListingIndex(listings, id)
    case None => Err(NotFound("Listing not found"))
    case Some(i) => Ok(listings[i])
  }

  /** The body of `POST /api/listings`. `status` is there to show that the
      handler never reads it. */
  datatype CreateBody = CreateBody(
    title: Option<string>,
    shortDescription: Option<string>,
    longDescription: Option<string>,
    category: Option<string>,
    region: Option<string>,
    images: Option<seq<string>>,
    contactMethods: Option<ContactMethods>,
    status: Option<string>)

  /** The whitelisted fields of the body, as `Listing.create` receives them. */
  function CreateInput(body: CreateBody): (input: ListingInput)
    ensures input.title == body.title && input.category == body.category && input.region == body.region
    ensures input.shortDescription == body.shortDescription && input.longDescription == body.longDescription
  {
    ListingInput(
      body.title, body.shortDescription, body.longDescription, body.category, body.region,
      Or(body.contactMethods, NoContactMethods))
  }

  /** `uploadMultipleImages`: one stored image per source, in order. */
  function UploadAll(sources: seq<string>, upload: string -> Image): (r: seq<Image>)
    ensures |r| == |sources|
    ensures forall i :: 0 <= i < |r| ==> r[i] == upload(sources[i])
  {
    seq(|sources|, i requires 0 <= i < |sources| => upload(sources[i]))
  }

  /** `createListing`: upload the images, then store a new listing owned by the
      caller. Whatever the body says, the listing starts `pending`. */
  method CreateListing(db: Db, caller: Id, body: CreateBody, upload: string -> Image, now: int) returns (r: Result<Listing>)
    requires db.Valid()
    modifies db`listings, db`nextId
    ensures db.Valid()
    ensures r.Ok? <==> Acceptable(CreateInput(body))
    ensures r.Err? ==> r.failure.BadRequest? && db.listings == old(db.listings)
    ensures r.Ok? ==> && db.listings == old(db.listings) + [r.value]
                      && ListingIndex(old(db.listings), r.value.id).None?
                      && r.value.status == Pending
                      && r.value.views == 0
                      && r.value.seller == caller
                      && r.value.images == (if body.images.Some? then UploadAll(body.images.value, upload) else [])
                      && r.value.expiresAt == now + ListingLifetimeMs
                      && r.value.createdAt == now
                      && !r.value.featured
    ensures r.Ok? ==> && r.value.title == Trim(body.title.value)
                      && r.value.shortDescription == body.shortDescription.value
                      && r.value.longDescription == body.longDescription.value
                      && CategoryName(r.value.category) == body.category.value
                      && RegionName(r.value.region) == body.region.value
                      && r.value.contactMethods == Or(body.contactMethods, NoContactMethods)
  {
    var images := if body.images.Some? then UploadAll(body.images.value, upload) else [];
    var id := db.FreshId();
    r := NewListing(id, CreateInput(body), images, caller, now);
    if r.Ok? {
      db.AppendListing(r.value);
    }
  }

  /** A listing just appended under a new id is the one `getListing` returns for it. */
  lemma CreateThenGet(listings: seq<Listing>, l: Listing)
    requires ListingIndex(listings, l.id).None?
    ensures GetListing(listings + [l], l.id) == Ok(l)
  {
    assert (listings + [l])[|listings|].id == l.id;
    var i := ListingIndex(listings + [l], l.id).value;
    assert i == |listings|;
  }

  /** The body of `PUT /api/listings/:id`. */
  datatype ListingUpdate = ListingUpdate(
    title: Option<string>,
    shortDescription: Option<string>,
    longDescription: Option<string>,
    category: Option<string>,
    region: Option<string>,
    images: Option<seq<string>>,
    contactMethods: Option<ContactMethods>,
    status: Option<string>)

  /** The update validators (`runValidators`), on the fields the update sets. */
  predicate UpdateAcceptable(u: ListingUpdate) {
    && (Truthy(u.title) ==> TitleOk(Trim(u.title.value)))
    && (Truthy(u.shortDescription) ==> ShortDescriptionOk(u.shortDescription.value))
    && (Truthy(u.longDescription) ==> LongDescriptionOk(u.longDescription.value))
    && (Truthy(u.category) ==> ParseCategory(u.category.value).Some?)
    && (Truthy(u.region) ==> ParseRegion(u.region.value).Some?)
    && (Truthy(u.status) ==> ParseStatus(u.status.value).Some?)
  }

  predicate IsDataUri(s: string) {
    StartsWith(s, "data:")
  }

  /** The images the update stores: uploads of the `data:` sources when there
      are any, otherwise the listing's current images. */
  function UpdatedImages(current: seq<Image>, supplied: Option<seq<string>>, upload: string -> Image): (r: seq<Image>)
    ensures supplied.None? ==> r == current
    ensures supplied.Some? && |Filter(supplied.value, IsDataUri)| > 0 ==> r == UploadAll(Filter(supplied.value, IsDataUri), upload)
    ensures supplied.Some? && |Filter(supplied.value, IsDataUri)| == 0 ==> r == current
  {
    if supplied.Some? && |Filter(supplied.value, IsDataUri)| > 0 then UploadAll(Filter(supplied.value, IsDataUri), upload)
    else current
  }

  /** `if (img.publicId)`: the image has a public id to delete. */
  function HasPublicId(): Image -> bool {
    (img: Image) => img.publicId != ""
  }

  /** The non-empty public ids of some images, in order: one per image that has one. */
  function PublicIds(images: seq<Image>): (r: seq<string>)
    ensures forall k :: 0 <= k < |r| ==> r[k] != ""
    decreases |images|
  {
    if images == [] then []
    else
      var rest := PublicIds(images[1..]);
      if images[0].publicId != "" then [images[0].publicId] + rest else rest
  }

  /** One id is sent per image that has a public id. */
  lemma {:induction false} PublicIdsCount(images: seq<Image>)
    ensures |PublicIds(images)| == CountWhere(images, HasPublicId())
    decreases |images|
  {
    if images != [] {
      PublicIdsCount(images[1..]);
    }
  }

  /** Every id sent for deletion is the public id of one of the images. */
  lemma {:induction false} PublicIdsSound(images: seq<Image>, k: nat) returns (j: nat)
    requires k < |PublicIds(images)|
    ensures j < |images| && images[j].publicId == PublicIds(images)[k]
    decreases |images|
  {
    var rest := PublicIds(images[1..]);
    if images[0].publicId != "" && k == 0 {
      j := 0;
    } else {
      var k' := if images[0].publicId != "" then k - 1 else k;
      assert PublicIds(images)[k] == rest[k'];
      var j' := PublicIdsSound(images[1..], k');
      j := j' + 1;
    }
  }

  /** Every image with a public id has it sent for deletion. */
  lemma {:induction false} PublicIdsComplete(images: seq<Image>, j: nat)
    requires j < |images| && images[j].publicId != ""
    ensures images[j].publicId in PublicIds(images)
    decreases |images|
  {
    if j > 0 {
      assert images[1..][j - 1] == images[j];
      PublicIdsComplete(images[1..], j - 1);
    }
  }

  /** The loop visits the images in order: the ids of a concatenation are
      those of the first part, then those of the second. */
  lemma {:induction false} PublicIdsAppend(a: seq<Image>, b: seq<Image>)
    ensures PublicIds(a + b) == PublicIds(a) + PublicIds(b)
    decreases |a|
  {
    if a == [] {
      assert a + b == b;
    } else {
      var h := if a[0].publicId != "" then [a[0].publicId] else [];
      assert PublicIds(a) == h + PublicIds(a[1..]);
      assert (a + b)[0] == a[0];
      assert (a + b)[1..] == a[1..] + b;
      assert PublicIds(a + b) == h + PublicIds(a[1..] + b);
      PublicIdsAppend(a[1..], b);
    }
  }

  /** `fieldsToUpdate` applied by `findByIdAndUpdate`: every field supplied
      non-empty overwrites the stored one, the images are replaced, and
      nothing else changes; an invalid field rejects the whole update. */
  function Overwrite(l: Listing, u: ListingUpdate, images: seq<Image>): (r: Result<Listing>)
    ensures r.Ok? <==> UpdateAcceptable(u)
    ensures r.Err? ==> r.failure.BadRequest?
    ensures r.Ok? ==> r.value.title == (if Truthy(u.title) then Trim(u.title.value) else l.title)
    ensures r.Ok? ==> r.value.shortDescription == (if Truthy(u.shortDescription) then u.shortDescription.value else l.shortDescription)
    ensures r.Ok? ==> r.value.longDescription == (if Truthy(u.longDescription) then u.longDescription.value else l.longDescription)
    ensures r.Ok? ==> if Truthy(u.category) then CategoryName(r.value.category) == u.category.value else r.value.category == l.category
    ensures r.Ok? ==> if Truthy(u.region) then RegionName(r.value.region) == u.region.value else r.value.region == l.region
    ensures r.Ok? ==> if Truthy(u.status) then StatusName(r.value.status) == u.status.value else r.value.status == l.status
    ensures r.Ok? ==> r.value.contactMethods == Or(u.contactMethods, l.contactMethods)
    ensures r.Ok? ==> r.value.images == images
    ensures r.Ok? ==> && r.value.id == l.id && r.value.seller == l.seller && r.value.views == l.views
                      && r.value.featured == l.featured && r.value.expiresAt == l.expiresAt
                      && r.value.createdAt == l.createdAt
  {
    if !UpdateAcceptable(u) then Err(BadRequest("Listing validation failed"))
    else
      var title := if Truthy(u.title) then Trim(u.title.value) else l.title;
      var short := if Truthy(u.shortDescription) then u.shortDescription.value else l.shortDescription;
      var long := if Truthy(u.longDescription) then u.longDescription.value else l.longDescription;
      var category := if Truthy(u.category) then ParseCategory(u.category.value).value else l.category;
      var region := if Truthy(u.region) then ParseRegion(u.region.value).value else l.region;
      var status := if Truthy(u.status) then ParseStatus(u.status.value).value else l.status;
      Ok(Listing(
        l.id, title, short, long, category, region, images, Or(u.contactMethods, l.contactMethods),
        l.seller, status, l.views, l.featured, l.expiresAt, l.createdAt))
  }

  /** An accepted update keeps a valid listing valid. */
  lemma OverwriteValid(l: Listing, u: ListingUpdate, images: seq<Image>)
    requires Valid(l) && Overwrite(l, u, images).Ok?
    ensures Valid(Overwrite(l, u, images).value)
  {
  }

  /** `updateListing`. When the body carries an `images` array, every current
      image is sent for deletion before anything is validated; the stored
      images are then the uploads of the `data:` sources, or, when there are
      none, the current ones. */
  method UpdateListing(db: Db, id: Id, u: ListingUpdate, upload: string -> Image) returns (r: Result<Listing>, deleted: seq<string>)
    requires db.Valid()
    modifies db`listings
    ensures db.Valid()
    ensures ListingIndex(old(db.listings), id).None? ==>
      r == Err(NotFound("Listing not found")) && deleted == [] && db.listings == old(db.listings)
    ensures ListingIndex(old(db.listings), id).Some? ==>
      var i := ListingIndex(old(db.listings), id).value;
      var l := old(db.listings)[i];
      && deleted == (if u.images.Some? then PublicIds(l.images) else [])
      && r == Overwrite(l, u, UpdatedImages(l.images, u.images, upload))
      && db.listings == (if r.Ok? then old(db.listings)[i := r.value] else old(db.listings))
  {
    match ListingIndex(db.listings, id)
    case None =>
      r, deleted := Err(NotFound("Listing not found")), [];
    case Some(i) =>
      var l := db.listings[i];
      deleted := if u.images.Some? then PublicIds(l.images) else [];
      r := Overwrite(l, u, UpdatedImages(l.images, u.images, upload));
      if r.Ok? {
        OverwriteValid(l, u, UpdatedImages(l.images, u.images, upload));
        ListingsReplace(db.listings, db.nextId, i, r.value);
        db.listings := db.listings[i := r.value];
      }
  }

  /** An `images` array without a `data:` source keeps the stored images while
      every one of them with a public id is sent for deletion. */
  lemma UpdateWithoutUploadsKeepsDeletedImages(l: Listing, u: ListingUpdate, upload: string -> Image)
    requires u.images.Some? && forall k :: 0 <= k < |u.images.value| ==> !IsDataUri(u.images.value[k])
    requires UpdateAcceptable(u)
    ensures Overwrite(l, u, UpdatedImages(l.images, u.images, upload)).value.images == l.images
    ensures forall j :: 0 <= j < |l.images| && l.images[j].publicId != "" ==> l.images[j].publicId in PublicIds(l.images)
  {
    FilterNone(u.images.value, IsDataUri);
    forall j | 0 <= j < |l.images| && l.images[j].publicId != ""
      ensures l.images[j].publicId in PublicIds(l.images)
    {
      PublicIdsComplete(l.images, j);
    }
  }

  /** `deleteListing`: the listing's images are sent for deletion and exactly
      that listing leaves the store. */
  method DeleteListing(db: Db, id: Id) returns (r: Result<Id>, deleted: seq<string>)
    requires db.Valid()
    modifies db`listings
    ensures db.Valid()
    ensures ListingIndex(old(db.listings), id).None? ==>
      r == Err(NotFound("Listing not found")) && deleted == [] && db.listings == old(db.listings)
    ensures ListingIndex(old(db.listings), id).Some? ==>
      var i := ListingIndex(old(db.listings), id).value;
      && r == Ok(id)
      && deleted == PublicIds(old(db.listings)[i].images)
      && db.listings == old(db.listings)[..i] + old(db.listings)[i + 1..]
  {
    match ListingIndex(db.listings, id)
    case None =>
      r, deleted := Err(NotFound("Listing not found")), [];
    case Some(i) =>
      deleted := PublicIds(db.listings[i].images);
      ListingsRemove(db.listings, db.nextId, i);
      db.listings := db.listings[..i] + db.listings[i + 1..];
      r := Ok(id);
  }

  /** After a delete no listing has that id, and every other listing is still there. */
  lemma DeleteRemovesExactlyOne(s: seq<Listing>, bound: nat, i: nat)
    requires ListingsOk(s, bound) && i < |s|
    ensures ListingIndex(s[..i] + s[i + 1..], s[i].id).None?
    ensures forall j :: 0 <= j < |s| && j != i ==> s[j] in s[..i] + s[i + 1..]
  {
    var t := s[..i] + s[i + 1..];
    forall k | 0 <= k < |t| ensures t[k].id != s[i].id {
      if k < i {
        assert t[k] == s[k];
      } else {
        assert t[k] == s[k + 1];
      }
    }
    forall j | 0 <= j < |s| && j != i ensures s[j] in t {
      if j < i {
        assert t[j] == s[j];
      } else {
        assert t[j - 1] == s[j];
      }
    }
  }

  /** `incrementViews` on the stored listing; the response carries the new count. */
  method IncrementListingViews(db: Db, id: Id) returns (r: Result<int>)
    requires db.Valid()
    modifies db`listings
    ensures db.Valid()
    ensures ListingIndex(old(db.listings), id).None? ==>
      r == Err(NotFound("Listing not found")) && db.listings == old(db.listings)
    ensures ListingIndex(old(db.listings), id).Some? ==>
      var i := ListingIndex(old(db.listings), id).value;
      && r == Ok(old(db.listings)[i].views + 1)
      && db.listings == old(db.listings)[i := IncrementViews(old(db.listings)[i])]
  {
    match ListingIndex(db.listings, id)
    case None =>
      r := Err(NotFound("Listing not found"));
    case Some(i) =>
      var l := IncrementViews(db.listings[i]);
      IncrementViewsValid(db.listings[i]);
      ListingsReplace(db.listings, db.nextId, i, l);
      db.listings := db.listings[i := l];
      r := Ok(l.views);
  }
}

/** The listing document (backend/models/Listing.js): its closed category,
    region and status sets, the field validators, the creation defaults and
    `incrementViews`. */
module ListingModel {

  import opened Common
  import opened Text

  datatype Category = Electronics | Vehicles | RealEstate | Fashion | Home | Services | Jobs | OtherCategory

  datatype Region = AddisAbaba | Oromia | Amhara | Tigray | Somali | Afar | Sidama | Snnpr | OtherRegion

  /** The lifecycle state of a listing. */
  datatype Status = Pending | Active | Rejected | Expired | Sold

  const CategoryNames: seq<string> :=
    ["electronics", "vehicles", "realestate", "fashion", "home", "services", "jobs", "other"]

  const RegionNames: seq<string> :=
    ["addisababa", "oromia", "amhara", "tigray", "somali", "afar", "sidama", "snnpr", "other"]

  const StatusNames: seq<string> := ["pending", "active", "rejected", "expired", "sold"]

  function CategoryName(c: Category): (s: string)
    ensures s in CategoryNames
  {
    match c
    case Electronics => "electronics"
    case Vehicles => "vehicles"
    case RealEstate => "realestate"
    case Fashion => "fashion"
    case Home => "home"
    case Services => "services"
    case Jobs => "jobs"
    case OtherCategory => "other"
  }

  /** The enum validator of `category`: a string names a category exactly when
      it is one of the eight schema values. */
  function ParseCategory(s: string): (r: Option<Category>)
    ensures r.Some? ==> CategoryName(r.value) == s
    ensures r.None? <==> s !in CategoryNames
  {
    if s == "electronics" then Some(Electronics)
    else if s == "vehicles" then Some(Vehicles)
    else if s == "realestate" then Some(RealEstate)
    else if s == "fashion" then Some(Fashion)
    else if s == "home" then Some(Home)
    else if s == "services" then Some(Services)
    else if s == "jobs" then Some(Jobs)
    else if s == "other" then Some(OtherCategory)
    else None
  }

  function RegionName(r: Region): (s: string)
    ensures s in RegionNames
  {
    match r
    case AddisAbaba => "addisababa"
    case Oromia => "oromia"
    case Amhara => "amhara"
    case Tigray => "tigray"
    case Somali => "somali"
    case Afar => "afar"
    case Sidama => "sidama"
    case Snnpr => "snnpr"
    case OtherRegion => "other"
  }

  /** The enum validator of `region`. */
  function ParseRegion(s: string): (r: Option<Region>)
    ensures r.Some? ==> RegionName(r.value) == s
    ensures r.None? <==> s !in RegionNames
  {
    if s == "addisababa" then Some(AddisAbaba)
    else if s == "oromia" then Some(Oromia)
    else if s == "amhara" then Some(Amhara)
    else if s == "tigray" then Some(Tigray)
    else if s == "somali" then Some(Somali)
    else if s == "afar" then Some(Afar)
    else if s == "sidama" then Some(Sidama)
    else if s == "snnpr" then Some(Snnpr)
    else if s == "other" then Some(OtherRegion)
    else None
  }

  function StatusName(st: Status): (s: string)
    ensures s in StatusNames
  {
    match st
    case Pending => "pending"
    case Active => "active"
    case Rejected => "rejected"
    case Expired => "expired"
    case Sold => "sold"
  }

  /** The enum validator of `status`. */
  function ParseStatus(s: string): (r: Option<Status>)
    ensures r.Some? ==> StatusName(r.value) == s
    ensures r.None? <==> s !in StatusNames
  {
    if s == "pending" then Some(Pending)
    else if s == "active" then Some(Active)
    else if s == "rejected" then Some(Rejected)
    else if s == "expired" then Some(Expired)
    else if s == "sold" then Some(Sold)
    else None
  }

  /** The enum names are in one-to-one correspondence with the values: parsing a
      name gives back its value, and distinct values have distinct names. */
  lemma NamesRoundTrip(c: Category, g: Region, st: Status)
    ensures ParseCategory(CategoryName(c)) == Some(c)
    ensures ParseRegion(RegionName(g)) == Some(g)
    ensures ParseStatus(StatusName(st)) == Some(st)
  {
  }

  /** Distinct values have distinct names. */
  lemma NamesInjective()
    ensures forall a: Category, b: Category {:trigger CategoryName(a), CategoryName(b)} :: CategoryName(a) == CategoryName(b) ==> a == b
    ensures forall a: Region, b: Region {:trigger RegionName(a), RegionName(b)} :: RegionName(a) == RegionName(b) ==> a == b
    ensures forall a: Status, b: Status {:trigger StatusName(a), StatusName(b)} :: StatusName(a) == StatusName(b) ==> a == b
  {
    forall a: Category, b: Category ensures CategoryName(a) == CategoryName(b) ==> a == b {
      NamesRoundTrip(a, AddisAbaba, Active);
      NamesRoundTrip(b, AddisAbaba, Active);
    }
    forall a: Region, b: Region ensures RegionName(a) == RegionName(b) ==> a == b {
      NamesRoundTrip(Electronics, a, Active);
      NamesRoundTrip(Electronics, b, Active);
    }
    forall a: Status, b: Status ensures StatusName(a) == StatusName(b) ==> a == b {
      NamesRoundTrip(Electronics, AddisAbaba, a);
      NamesRoundTrip(Electronics, AddisAbaba, b);
    }
  }

  datatype Image = Image(url: string, publicId: string)

  /** The nested `contactMethods` object; an absent entry is `None`. */
  datatype ContactMethods = ContactMethods(
    phone: Option<string>,
    whatsapp: Option<string>,
    telegram: Option<string>,
    email: Option<string>)

  const NoContactMethods := ContactMethods(None, None, None, None)

  datatype Listing = Listing(
    id: Id,
    title: string,
    shortDescription: string,
    longDescription: string,
    category: Category,
    region: Region,
    images: seq<Image>,
    contactMethods: ContactMethods,
    seller: Id,
    status: Status,
    views: int,
    featured: bool,
    expiresAt: int,
    createdAt: int)

  /** The sort key of the newest-first queries. */
  function CreatedAt(l: Listing): int {
    l.createdAt
  }

  const TitleMax := 100
  const ShortDescriptionMax := 200
  const LongDescriptionMax := 2000

  /** A listing expires thirty days after it is created. */
  const ListingLifetimeMs: int := 30 * DayMs

  /** The `title` validators, after the `trim` setter: required (non-empty) and
      at most 100 characters. */
  predicate TitleOk(t: string) {
    t != "" && |t| <= TitleMax
  }

  predicate ShortDescriptionOk(s: string) {
    s != "" && |s| <= ShortDescriptionMax
  }

  predicate LongDescriptionOk(s: string) {
    s != "" && |s| <= LongDescriptionMax
  }

  /** The schema's validators hold of a stored listing. */
  predicate Valid(l: Listing) {
    && Trimmed(l.title)
    && TitleOk(l.title)
    && ShortDescriptionOk(l.shortDescription)
    && LongDescriptionOk(l.longDescription)
    && l.views >= 0
  }

  /** The fields `Listing.create` receives from the create handler. A field the
      request omits is `None`. There is no `status`: the handler never passes one. */
  datatype ListingInput = ListingInput(
    title: Option<string>,
    shortDescription: Option<string>,
    longDescription: Option<string>,
    category: Option<string>,
    region: Option<string>,
    contactMethods: ContactMethods)

  /** The schema accepts the input: every required field is present and the
      validators hold (the title is checked after trimming). */
  predicate Acceptable(input: ListingInput) {
    && input.title.Some? && TitleOk(Trim(input.title.value))
    && input.shortDescription.Some? && ShortDescriptionOk(input.shortDescription.value)
    && input.longDescription.Some? && LongDescriptionOk(input.longDescription.value)
    && input.category.Some? && ParseCategory(input.category.value).Some?
    && input.region.Some? && ParseRegion(input.region.value).Some?
  }

  /** `Listing.create`: validate the input and fill in the defaults: status
      `pending`, no views, not featured, expiring thirty days after `now`. */
  function NewListing(id: Id, input: ListingInput, images: seq<Image>, seller: Id, now: int): (r: Result<Listing>)
    ensures r.Ok? <==> Acceptable(input)
    ensures r.Err? ==> r.failure.BadRequest?
    ensures r.Ok? ==> Valid(r.value)
    ensures r.Ok? ==> && r.value.id == id
                      && r.value.status == Pending
                      && r.value.views == 0
                      && !r.value.featured
                      && r.value.createdAt == now
                      && r.value.expiresAt == now + ListingLifetimeMs
                      && r.value.seller == seller
                      && r.value.images == images
                      && r.value.contactMethods == input.contactMethods
    ensures r.Ok? ==> && r.value.title == Trim(input.title.value)
                      && r.value.shortDescription == input.shortDescription.value
                      && r.value.longDescription == input.longDescription.value
                      && CategoryName(r.value.category) == input.category.value
                      && RegionName(r.value.region) == input.region.value
  {
    if !Acceptable(input) then Err(BadRequest("Listing validation failed"))
    else
      var title := Trim(input.title.value);
      Ok(Listing(
        id, title, input.shortDescription.value, input.longDescription.value,
        ParseCategory(input.category.value).value, ParseRegion(input.region.value).value,
        images, input.contactMethods, seller,
        Pending, 0, false, now + ListingLifetimeMs, now))
  }

  /** `incrementViews`: one more view, every other field unchanged. */
  function IncrementViews(l: Listing): (r: Listing)
    ensures r.views == l.views + 1
    ensures r.(views := l.views) == l
  {
    l.(views := l.views + 1)
  }

  /** Counting a view keeps a listing valid. */
  lemma IncrementViewsValid(l: Listing)
    requires Valid(l)
    ensures Valid(IncrementViews(l))
  {
  }
}

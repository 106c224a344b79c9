/** The four-step "create listing" page: the step counter with its clamped
    back/next buttons, the Enter-key guard, each step's field rules, and the
    payload it posts once the last step is submitted. */
module CreateListingPage {

  import opened Common
  import opened Text
  import L = ListingModel
  import Phone = PhoneFormat
  import U = UserModel

  const FirstStep: int := 1
  const LastStep: int := 4

  /** The choices the page offers for category and region. */
  const Categories: seq<string> :=
    ["electronics", "vehicles", "realestate", "fashion", "home", "services", "jobs", "other"]
  const Regions: seq<string> :=
    ["addisababa", "oromia", "amhara", "tigray", "somali", "afar", "sidama", "snnpr", "other"]

  /** The page offers exactly the categories and regions the listing schema accepts. */
  lemma ChoicesMatchSchema()
    ensures forall c :: c in Categories <==> L.ParseCategory(c).Some?
    ensures forall g :: g in Regions <==> L.ParseRegion(g).Some?
  {
    assert Categories == L.CategoryNames;
    assert Regions == L.RegionNames;
  }

  /** `setStep(s => Math.min(s + 1, 4))` */
  function Next(s: int): (r: int)
    ensures r <= LastStep
    ensures FirstStep <= s <= LastStep ==> FirstStep <= r
    ensures s < LastStep ==> r == s + 1
  {
    if s + 1 < LastStep then s + 1 else LastStep
  }

  /** `setStep(s => Math.max(s - 1, 1))` */
  function Prev(s: int): (r: int)
    ensures r >= FirstStep
    ensures FirstStep <= s <= LastStep ==> r <= LastStep
    ensures s > FirstStep ==> r == s - 1
  {
    if s - 1 > FirstStep then s - 1 else FirstStep
  }

  /** Back undoes next below the last step, and next undoes back above the first. */
  lemma NextPrevInverse(s: int)
    ensures FirstStep <= s < LastStep ==> Prev(Next(s)) == s
    ensures FirstStep < s <= LastStep ==> Next(Prev(s)) == s
  {
  }

  /** `handleKeyDown`: Enter is swallowed on every step but the last. */
  predicate SuppressesEnter(step: int, key: string) {
    key == "Enter" && step != LastStep
  }

  /** The registered inputs' values; an untouched input is `""`. */
  datatype FormData = FormData(
    title: string,
    category: string,
    region: string,
    shortDescription: string,
    longDescription: string,
    phone: string,
    whatsapp: string,
    telegram: string,
    email: string)

  predicate IsLetter(c: char) {
    ('A' <= c <= 'Z') || ('a' <= c <= 'z')
  }

  /** `[A-Z0-9._%+-]` under the `i` flag */
  predicate LocalChar(c: char) {
    IsLetter(c) || IsDigit(c) || c in "._%+-"
  }

  /** `[A-Z0-9.-]` under the `i` flag */
  predicate DomainChar(c: char) {
    IsLetter(c) || IsDigit(c) || c in ".-"
  }

  /** `[A-Z0-9.-]+\.[A-Z]{2,}`: domain characters, with a dot after at least
      one of them that is followed by two letters or more up to the end. */
  predicate DomainPart(d: string) {
    && (forall k :: 0 <= k < |d| ==> DomainChar(d[k]))
    && exists j :: 1 <= j && j + 3 <= |d| && d[j] == '.' && forall k :: j < k < |d| ==> IsLetter(d[k])
  }

  /** `/^[A-Z0-9._%+-]+@[A-Z0-9.-]+\.[A-Z]{2,}$/i`; neither class has `@`, so the
      first `@` is the only one. */
  predicate EmailPattern(s: string) {
    match IndexOf(s, '@')
    case None => false
    case Some(i) =>
      && s[..i] != []
      && (forall k :: 0 <= k < i ==> LocalChar(s[k]))
      && DomainPart(s[i + 1..])
  }

  /** The rules of the inputs rendered on a step; `handleSubmit` checks only
      the mounted inputs, so only the current step's rules run before `onSubmit`.
      Pattern and `validate` rules pass on an empty input. */
  predicate StepRules(step: int, data: FormData) {
    if step == 1 then
      && data.title != "" && |data.title| >= 5
      && data.category != ""
      && data.region != ""
    else if step == 2 then
      && data.shortDescription != "" && |data.shortDescription| <= 100
      && data.longDescription != "" && |data.longDescription| >= 20
    else if step == LastStep then
      && (data.phone == "" || Phone.ValidateEthiopianPhone(data.phone))
      && (data.whatsapp == "" || Phone.ValidateEthiopianPhone(data.whatsapp))
      && (data.email == "" || EmailPattern(data.email))
    else
      true
  }

  /** `value || undefined` */
  function ContactOf(value: string): (r: Option<string>)
    ensures r.None? <==> value == ""
    ensures r.Some? ==> r.value == value
  {
    if value == "" then None else Some(value)
  }

  /** `{ ...data, images, contactMethods }`: the form values as they are, the
      images, and the contact methods with empty ones left out. */
  datatype ListingPayload = ListingPayload(data: FormData, images: seq<string>, contactMethods: L.ContactMethods)

  function BuildPayload(data: FormData, images: seq<string>): ListingPayload {
    ListingPayload(data, images,
      L.ContactMethods(ContactOf(data.phone), ContactOf(data.whatsapp), ContactOf(data.telegram), ContactOf(data.email)))
  }

  /** `handleSubmit(onSubmit)`: a payload leaves the page only from the last
      step and only when that step's contact inputs pass their rules; the
      values kept from earlier steps go out unchecked. Every contact the
      payload carries then passes its rule. */
  function SubmitGate(step: int, data: FormData, images: seq<string>): (r: Option<ListingPayload>)
    ensures r.Some? <==> && step == LastStep
                         && (data.phone == "" || Phone.ValidateEthiopianPhone(data.phone))
                         && (data.whatsapp == "" || Phone.ValidateEthiopianPhone(data.whatsapp))
                         && (data.email == "" || EmailPattern(data.email))
    ensures r.Some? ==> r.value.data == data && r.value.images == images
    ensures r.Some? ==> var c := r.value.contactMethods;
              && (c.phone.Some? ==> Phone.ValidateEthiopianPhone(c.phone.value))
              && (c.whatsapp.Some? ==> Phone.ValidateEthiopianPhone(c.whatsapp.value))
              && (c.email.Some? ==> EmailPattern(c.email.value))
              && (c.telegram.Some? <==> data.telegram != "")
  {
    if StepRules(step, data) && step == LastStep then Some(BuildPayload(data, images)) else None
  }

  /** The title rule belongs to the first step, so a title the first step
      would refuse still goes out with the payload from the last step. */
  lemma ShortTitleSent(images: seq<string>) returns (data: FormData)
    ensures |data.title| < 5 && !StepRules(1, data)
    ensures SubmitGate(LastStep, data, images).Some?
    ensures SubmitGate(LastStep, data, images).value.data.title == "abc"
  {
    data := FormData("abc", "", "", "", "", "", "", "", "");
  }

  /** A submitted phone contact is one the backend's user schema would accept
      once normalised. */
  lemma SubmittedPhoneFitsBackend(step: int, data: FormData, images: seq<string>)
    requires SubmitGate(step, data, images).Some?
    requires data.phone != ""
    ensures var c := SubmitGate(step, data, images).value.contactMethods;
            c.phone.Some? && U.EthiopianPhoneShape(Phone.NormalizePhoneNumber(c.phone.value))
  {
    Phone.ValidateMatchesBackend(data.phone);
  }

  /** The page's state: the current step and the images the upload widget reported. */
  class ListingWizard {
    var step: int
    var images: seq<string>

    ghost predicate Valid()
      reads this
    {
      FirstStep <= step <= LastStep
    }

    constructor ()
      ensures Valid() && step == FirstStep && images == []
    {
      step := FirstStep;
      images := [];
    }

    /** `nextStep` */
    method NextStep()
      requires Valid()
      modifies this`step
      ensures Valid() && step == Next(old(step))
    {
      step := Next(step);
    }

    /** `prevStep` */
    method PrevStep()
      requires Valid()
      modifies this`step
      ensures Valid() && step == Prev(old(step))
    {
      step := Prev(step);
    }

    /** `handleKeyDown`: whether the key press is cancelled. */
    method HandleKeyDown(key: string) returns (preventDefault: bool)
      ensures preventDefault <==> key == "Enter" && step != LastStep
    {
      preventDefault := SuppressesEnter(step, key);
    }

    /** `setImages`, the upload widget's `onChange` */
    method SetImages(list: seq<string>)
      modifies this`images
      ensures images == list
    {
      images := list;
    }

    /** Submitting the form: the payload handed to the create mutation, if any. */
    method Submit(data: FormData) returns (r: Option<ListingPayload>)
      ensures r == SubmitGate(step, data, images)
    {
      if !StepRules(step, data) {
        return None;
      }
      if step != LastStep {
        return None;
      }
      r := Some(BuildPayload(data, images));
    }
  }
}

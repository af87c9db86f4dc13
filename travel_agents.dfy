/** The travel-agent form: it builds a package from the typed fields,
    appends it to the agent-added packages the packages page lists, and
    clears itself. */
module TravelAgents {
  import opened JsText
  import opened Types
  import opened Seqs
  import opened PackagesPage

  /** The form's fields, all text. */
  datatype AgentForm = AgentForm(
    id: string,
    title: string,
    image: string,
    duration: string,
    price: string,
    rating: string,
    description: string,
    category: string,
    cities: string)

  const BlankForm: AgentForm := AgentForm("", "", "", "", "", "", "", "", "")

  /** The inputs the form renders; it has none for the id, the description
      or the category. */
  datatype Input = TitleInput | ImageInput | DurationInput | PriceInput | RatingInput | CitiesInput

  /** `handleInputChange`: `{ ...formData, [name]: value }`. */
  function Changed(form: AgentForm, input: Input, value: string): AgentForm {
    match input
    case TitleInput => form.(title := value)
    case ImageInput => form.(image := value)
    case DurationInput => form.(duration := value)
    case PriceInput => form.(price := value)
    case RatingInput => form.(rating := value)
    case CitiesInput => form.(cities := value)
  }

  /** Typing never fills the fields the form has no input for. */
  lemma ChangedKeepsHiddenFields(form: AgentForm, input: Input, value: string)
    ensures Changed(form, input, value).id == form.id
    ensures Changed(form, input, value).description == form.description
    ensures Changed(form, input, value).category == form.category
  {
  }

  /** `cities.split(',').map(city => city.trim())`. */
  function CityList(text: string): seq<string> {
    seq(|Split(text, ',')|, i requires 0 <= i < |Split(text, ',')| => Trim(Split(text, ',')[i]))
  }

  /** There is one city more than there are commas; no city holds a comma or
      starts or ends with whitespace. */
  lemma CityListShape(text: string)
    ensures |CityList(text)| == CountChar(text, ',') + 1
    ensures forall i :: 0 <= i < |CityList(text)| ==>
      ',' !in CityList(text)[i] && Trim(CityList(text)[i]) == CityList(text)[i]
  {
    SplitJoin(text, ',');
    var r := CityList(text);
    forall i | 0 <= i < |r| ensures ',' !in r[i] && Trim(r[i]) == r[i] {
      var piece := Split(text, ',')[i];
      TrimIsInnerSlice(piece);
      TrimIdempotent(piece);
    }
  }

  /** `handleSubmit`'s package at time `now`: the form's fields with the id
      replaced, the price prefixed with the rupee sign and the cities split
      out; the rating stays the typed text, there is no review count and no
      `featured` flag. */
  function NewPackage(form: AgentForm, now: nat): TourPackage {
    TourPackage(
      "pkg-" + NatToString(now),
      form.title,
      form.image,
      form.duration,
      CityList(form.cities),
      [Rupee] + form.price,
      form.description,
      form.category,
      Typed(form.rating),
      None,
      false)
  }

  /** The id is the timestamp's alone: whatever the form holds for `id`,
      the package is the same. */
  lemma NewPackageIgnoresFormId(form: AgentForm, x: string, now: nat)
    ensures NewPackage(form.(id := x), now) == NewPackage(form, now)
    ensures NewPackage(form, now).id == "pkg-" + NatToString(now)
  {
  }

  /** Two packages have the same id exactly when they were submitted at the
      same time, whatever their forms. */
  lemma NewPackageIdsByTime(f1: AgentForm, f2: AgentForm, n1: nat, n2: nat)
    ensures NewPackage(f1, n1).id == NewPackage(f2, n2).id <==> n1 == n2
  {
    var a, b := NewPackage(f1, n1).id, NewPackage(f2, n2).id;
    if a == b {
      assert a[4..] == NatToString(n1) && b[4..] == NatToString(n2);
      NatToStringValue(n1);
      NatToStringValue(n2);
    }
  }

  /** The rating stays the typed text, so the packages page reads it with
      `Number(...)`. */
  lemma NewPackageRatingIsText(form: AgentForm, now: nat)
    ensures NewPackage(form, now).rating == Typed(form.rating)
    ensures RatingValue(NewPackage(form, now).rating) == ToNumber(form.rating)
  {
  }

  /** A price typed as digits alone is read back by the packages page's
      price parse as the number those digits spell. */
  lemma PriceRoundTrip(form: AgentForm, now: nat)
    requires |form.price| > 0 && AllDigits(form.price)
    ensures PriceValue(NewPackage(form, now).price) == Some(ValueIn(form.price, 10))
  {
    RupeeDigitsValue(form.price);
  }

  /** Deleting the rupee sign and commas from the sign followed by digits
      leaves the digits. */
  lemma RupeeDigitsValue(d: string)
    requires |d| > 0 && AllDigits(d)
    ensures PriceValue([Rupee] + d) == Some(ValueIn(d, 10))
  {
    var stripped := DeleteChars([Rupee] + d, PriceMarks);
    DeleteCharsConcat([Rupee], d, PriceMarks);
    assert DeleteChars([Rupee], PriceMarks) == [];
    DigitsKeptWhole(d);
    assert stripped == d;
    ParseIntOfDigits(d);
  }

  /** A form with no input for the category leaves it empty, so a package
      it adds fails every category filter and is never listed while one
      is selected. */
  lemma AddedPackageNeverInCategory(catalogue: seq<TourPackage>, added: seq<TourPackage>,
                                    form: AgentForm, now: nat, term: string, f: Filters)
    requires form.category == "" && f.category != ""
    ensures NewPackage(form, now) !in Query(catalogue, added + [NewPackage(form, now)], term, f)
  {
    var p := NewPackage(form, now);
    var r := Query(catalogue, added + [p], term, f);
    QuerySound(catalogue, added + [p], term, f);
  }

  /** With no filter, no search and at most fifteen packages in all, a
      submitted package is listed. */
  lemma SubmittedPackageListed(catalogue: seq<TourPackage>, added: seq<TourPackage>, form: AgentForm, now: nat)
    requires |catalogue| + |added| < DisplayCap
    ensures NewPackage(form, now) in Query(catalogue, added + [NewPackage(form, now)], "", DefaultFilters)
  {
    var p := NewPackage(form, now);
    var all := catalogue + (added + [p]);
    NoFiltersKeepAll(all, DefaultFilters);
    QueryCompleteUnderCap(catalogue, added + [p], "", DefaultFilters);
    assert all[|all| - 1] == p;
  }

  class TravelAgentsPage {
    var formData: AgentForm
    var addedPackages: seq<TourPackage>
    /** The `addedPackages` storage entry. */
    var stored: Option<seq<TourPackage>>

    /** The form never holds an id, a description or a category: it has no
        input for them and starts and resets them empty. */
    predicate Valid()
      reads this
    {
      formData.id == "" && formData.description == "" && formData.category == ""
    }

    /** The page starts with a blank form and the stored packages, or none. */
    constructor (saved: Option<seq<TourPackage>>)
      ensures Valid() && formData == BlankForm
      ensures addedPackages == (if saved.Some? then saved.value else []) && stored == saved
    {
      formData := BlankForm;
      addedPackages := if saved.Some? then saved.value else [];
      stored := saved;
    }

    method ChangeInput(input: Input, value: string)
      requires Valid()
      modifies this`formData
      ensures formData == Changed(old(formData), input, value)
      ensures Valid()
    {
      formData := Changed(formData, input, value);
    }

    /** `handleSubmit` at time `now`: no field is checked; the package is
        appended and stored, and the form cleared. */
    method HandleSubmit(now: nat)
      requires Valid()
      modifies this
      ensures addedPackages == old(addedPackages) + [NewPackage(old(formData), now)]
      ensures |addedPackages| == |old(addedPackages)| + 1 && addedPackages[..|old(addedPackages)|] == old(addedPackages)
      ensures stored == Some(addedPackages)
      ensures formData == BlankForm && Valid()
      ensures addedPackages[|addedPackages| - 1].category == "" && addedPackages[|addedPackages| - 1].description == ""
      ensures addedPackages[|addedPackages| - 1].id == "pkg-" + NatToString(now)
      ensures addedPackages[|addedPackages| - 1].rating == Typed(old(formData).rating)
    {
      var newPackage := NewPackage(formData, now);
      var updatedPackages := addedPackages + [newPackage];
      assert updatedPackages[..|addedPackages|] == addedPackages;
      addedPackages := updatedPackages;
      stored := Some(updatedPackages);
      formData := BlankForm;
    }
  }
}

/** The records the application passes around: the tour package of the
    catalogue, and the trip-logging shapes (trips, locations, companions,
    consent) as the trip components build and read them. Times are
    milliseconds since the epoch. */
module Types {
  import opened JsText

  /** A package's rating: catalogue packages carry a number, packages added
      through the agent form keep the text typed into the form. */
  datatype Rating = Score(value: real) | Typed(text: string)

  /** A tour package. Catalogue packages always have a review count; added
      packages have none. A missing `featured` flag reads as false. */
  datatype TourPackage = TourPackage(
    id: string,
    title: string,
    image: string,
    duration: string,
    cities: seq<string>,
    price: string,
    description: string,
    category: string,
    rating: Rating,
    reviews: Option<int>,
    featured: bool)

  datatype TransportMode =
    | Walking | Bicycle | Motorcycle | Car | Bus | Train | Metro
    | AutoRickshaw | Taxi | Flight | Boat | OtherMode

  datatype TripPurpose =
    | Work | Education | Shopping | Healthcare | Entertainment | Social
    | Business | Tourism | Religious | OtherPurpose

  /** The string value of a transport mode. */
  function ModeName(m: TransportMode): string {
    match m
    case Walking => "walking"
    case Bicycle => "bicycle"
    case Motorcycle => "motorcycle"
    case Car => "car"
    case Bus => "bus"
    case Train => "train"
    case Metro => "metro"
    case AutoRickshaw => "auto_rickshaw"
    case Taxi => "taxi"
    case Flight => "flight"
    case Boat => "boat"
    case OtherMode => "other"
  }

  /** The string value of a trip purpose. */
  function PurposeName(p: TripPurpose): string {
    match p
    case Work => "work"
    case Education => "education"
    case Shopping => "shopping"
    case Healthcare => "healthcare"
    case Entertainment => "entertainment"
    case Social => "social"
    case Business => "business"
    case Tourism => "tourism"
    case Religious => "religious"
    case OtherPurpose => "other"
  }

  /** Every transport mode, each once. */
  const AllModes: seq<TransportMode> :=
    [Walking, Bicycle, Motorcycle, Car, Bus, Train, Metro, AutoRickshaw, Taxi, Flight, Boat, OtherMode]

  /** Mode names tell modes apart, no name is `all`, and a mode name equals a
      purpose name only for the shared value `other`. */
  lemma NamesDistinct(m: TransportMode, n: TransportMode, p: TripPurpose)
    ensures ModeName(m) == ModeName(n) <==> m == n
    ensures ModeName(m) != "all" && PurposeName(p) != "all"
    ensures ModeName(m) == PurposeName(p) <==> m == OtherMode && p == OtherPurpose
  {
    ModeNamesApart(m, n);
    NoNameIsAll(m, p);
    SharedNameIsOther(m, p);
  }

  lemma ModeNamesApart(m: TransportMode, n: TransportMode)
    ensures ModeName(m) == ModeName(n) <==> m == n
  {
  }

  lemma NoNameIsAll(m: TransportMode, p: TripPurpose)
    ensures ModeName(m) != "all" && PurposeName(p) != "all"
  {
  }

  lemma SharedNameIsOther(m: TransportMode, p: TripPurpose)
    ensures ModeName(m) == PurposeName(p) <==> m == OtherMode && p == OtherPurpose
  {
  }

  /** `AllModes` lists every mode exactly once. */
  lemma AllModesComplete(m: TransportMode)
    ensures m in AllModes
    ensures forall i, j :: 0 <= i < j < |AllModes| ==> AllModes[i] != AllModes[j]
  {
  }

  datatype TripStatus = Active | Completed

  datatype Location = Location(
    id: string,
    latitude: real,
    longitude: real,
    address: string,
    detectedAutomatically: bool)

  /** A travel companion; age and gender may be left out. */
  datatype Companion = Companion(id: string, age: Option<int>, gender: Option<string>, relation: string)

  /** One leg of a multi-leg trip; only its distance is used. */
  datatype TripLeg = TripLeg(distance: Option<real>)

  datatype Trip = Trip(
    id: string,
    userId: string,
    tripNumber: string,
    startTime: int,
    endTime: Option<int>,
    origin: Location,
    destination: Location,
    mode: TransportMode,
    purpose: TripPurpose,
    companions: seq<Companion>,
    legs: seq<TripLeg>,
    status: TripStatus,
    createdAt: int)

  /** A `Partial<Trip>` as the logger hands it to the page: every field may
      be absent. */
  datatype TripData = TripData(
    tripNumber: Option<string>,
    startTime: Option<int>,
    endTime: Option<int>,
    origin: Option<Location>,
    destination: Option<Location>,
    mode: Option<TransportMode>,
    purpose: Option<TripPurpose>,
    companions: Option<seq<Companion>>,
    legs: Option<seq<TripLeg>>,
    status: Option<TripStatus>,
    createdAt: Option<int>)

  datatype UserConsent = UserConsent(
    userId: string,
    consentGiven: bool,
    consentDate: int,
    dataUsageAgreed: bool,
    locationTrackingAgreed: bool)
}

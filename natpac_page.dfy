/** The NATPAC page: it holds the saved trips and the user's consent, shows
    the consent form until consent is given, and turns the partial trip the
    logger hands it into a full trip placed at the head of the list. */
module NatpacPage {
  import opened JsText
  import opened Types
  import opened Seqs
  import opened TripLogger

  const Anonymous: string := "anonymous"

  /** The location used for a missing origin or destination. */
  const BlankLocation: Location := Location("", 0.0, 0.0, "", false)

  /** The tab shown once consent is given. */
  datatype Tab = LoggerTab | HistoryTab

  /** What the page renders: the consent gate (with the form open or not),
      or one of the two tabs. */
  datatype Screen = ConsentGate(formOpen: bool) | LoggerScreen(currentTrip: Option<Trip>) | HistoryScreen(trips: seq<Trip>)

  // ---------------------------------------------------------------------
  // The saved trip
  // ---------------------------------------------------------------------

  /** `userConsent?.userId || 'anonymous'`. */
  function TripOwner(consent: Option<UserConsent>): string {
    if consent.Some? && consent.value.userId != "" then consent.value.userId else Anonymous
  }

  /** `field || fallback` on an optional field whose present values are
      all truthy. */
  function OrElse<T>(field: Option<T>, fallback: T): T {
    if field.Some? then field.value else fallback
  }

  /** `handleSaveTrip`'s trip: each field of the partial trip that is
      present and truthy is copied, each other field takes its default.
      Only an empty trip number is falsy among present fields: the times
      are `Date` objects, and locations and arrays are objects. */
  function NewTrip(data: TripData, consent: Option<UserConsent>, id: string, now: int): (t: Trip)
    ensures t.id == id
    ensures consent.Some? && consent.value.userId != "" ==> t.userId == consent.value.userId
    ensures consent.None? || consent.value.userId == "" ==> t.userId == Anonymous
    ensures data.tripNumber.Some? && data.tripNumber.value != "" ==> t.tripNumber == data.tripNumber.value
    ensures data.tripNumber.None? || data.tripNumber.value == "" ==> t.tripNumber == "TRIP-" + IntToString(now)
    ensures t.startTime == (if data.startTime.Some? then data.startTime.value else now)
    ensures t.endTime == data.endTime
    ensures data.origin.Some? ==> t.origin == data.origin.value
    ensures data.origin.None? ==> t.origin == BlankLocation
    ensures data.destination.Some? ==> t.destination == data.destination.value
    ensures data.destination.None? ==> t.destination == BlankLocation
    ensures data.mode.Some? ==> t.mode == data.mode.value
    ensures data.mode.None? ==> t.mode == Car
    ensures data.purpose.Some? ==> t.purpose == data.purpose.value
    ensures data.purpose.None? ==> t.purpose == Work
    ensures data.companions.Some? ==> t.companions == data.companions.value
    ensures data.companions.None? ==> t.companions == []
    ensures data.legs.Some? ==> t.legs == data.legs.value
    ensures data.legs.None? ==> t.legs == []
    ensures data.status.Some? ==> t.status == data.status.value
    ensures data.status.None? ==> t.status == Completed
    ensures data.createdAt.Some? ==> t.createdAt == data.createdAt.value
    ensures data.createdAt.None? ==> t.createdAt == now
  {
    Trip(
      id,
      TripOwner(consent),
      if data.tripNumber.Some? && data.tripNumber.value != "" then data.tripNumber.value else "TRIP-" + IntToString(now),
      OrElse(data.startTime, now),
      data.endTime,
      OrElse(data.origin, BlankLocation),
      OrElse(data.destination, BlankLocation),
      OrElse(data.mode, Car),
      OrElse(data.purpose, Work),
      OrElse(data.companions, []),
      OrElse(data.legs, []),
      OrElse(data.status, Completed),
      OrElse(data.createdAt, now))
  }

  /** A trip as a partial trip with every field present. */
  function AsPartial(t: Trip): TripData {
    TripData(Some(t.tripNumber), Some(t.startTime), t.endTime, Some(t.origin), Some(t.destination),
      Some(t.mode), Some(t.purpose), Some(t.companions), Some(t.legs), Some(t.status), Some(t.createdAt))
  }

  /** Defaults only fill gaps: saving a complete trip under its own id and
      owner gives that trip back, whatever the clock says. */
  lemma SaveCompleteTrip(t: Trip, consent: Option<UserConsent>, now: int)
    requires t.tripNumber != "" && t.userId == TripOwner(consent)
    ensures NewTrip(AsPartial(t), consent, t.id, now) == t
  {
  }

  /** With nothing supplied, every field takes its default. */
  lemma SaveEmptyTrip(consent: Option<UserConsent>, id: string, now: int)
    ensures var empty := TripData(None, None, None, None, None, None, None, None, None, None, None);
      NewTrip(empty, consent, id, now)
        == Trip(id, TripOwner(consent), "TRIP-" + IntToString(now), now, None, BlankLocation, BlankLocation,
                Car, Work, [], [], Completed, now)
  {
  }

  /** A trip finished by the logger keeps, once saved, everything the
      logger put in it: the saved trip is completed, has no legs, carries
      the logger's mode, purpose, companions, times and trip number, and its
      origin is detected automatically exactly when a fix was known. */
  lemma SaveFinishedTrip(start: int, end: int, startLocation: string, destination: string,
                         mode: TransportMode, purpose: TripPurpose, companions: seq<Companion>,
                         fix: Option<Position>, originId: string, destinationId: string,
                         consent: Option<UserConsent>, id: string, now: int)
    ensures var t := NewTrip(FinishedTrip(start, end, startLocation, destination, mode, purpose, companions,
                                          fix, originId, destinationId), consent, id, now);
      && t.status == Completed && t.legs == [] && t.mode == mode && t.purpose == purpose
      && t.companions == companions && t.startTime == start && t.endTime == Some(end) && t.createdAt == end
      && t.tripNumber == "TRIP-" + IntToString(end)
      && t.origin.id == originId && t.origin.address == startLocation && (t.origin.detectedAutomatically <==> fix.Some?)
      && (fix.Some? ==> t.origin.latitude == fix.value.latitude && t.origin.longitude == fix.value.longitude)
      && (fix.None? ==> t.origin.latitude == 0.0 && t.origin.longitude == 0.0)
      && t.destination == Location(destinationId, 0.0, 0.0, destination, false)
  {
    assert |"TRIP-" + IntToString(end)| > 0;
  }

  /** The logger hands on a trip with every field set, so the page's
      defaults change none of them: the saved trip, read back as a partial
      trip, is the trip the logger finished. */
  lemma FinishedTripSavedWhole(start: int, end: int, startLocation: string, destination: string,
                               mode: TransportMode, purpose: TripPurpose, companions: seq<Companion>,
                               fix: Option<Position>, originId: string, destinationId: string,
                               consent: Option<UserConsent>, id: string, now: int)
    ensures var d := FinishedTrip(start, end, startLocation, destination, mode, purpose, companions,
                                  fix, originId, destinationId);
      AsPartial(NewTrip(d, consent, id, now)) == d
  {
    var d := FinishedTrip(start, end, startLocation, destination, mode, purpose, companions,
                          fix, originId, destinationId);
    assert |"TRIP-" + IntToString(end)| > 0;
    assert d.tripNumber.Some? && d.tripNumber.value != "";
  }

  // ---------------------------------------------------------------------
  // The current trip
  // ---------------------------------------------------------------------

  predicate IsActiveTrip(t: Trip) {
    t.status == Active
  }

  /** `trips.find(trip => trip.status === 'active')`. */
  function CurrentTrip(trips: seq<Trip>): (r: Option<Trip>)
    ensures r.Some? ==> (r.value.status == Active
      && exists i :: 0 <= i < |trips| && trips[i] == r.value && forall j :: 0 <= j < i ==> trips[j].status != Active)
    ensures r.None? <==> forall j :: 0 <= j < |trips| ==> trips[j].status != Active
  {
    match FindFirst(trips, IsActiveTrip)
    case Some(i) => Some(trips[i])
    case None => None
  }

  /** Prepending a trip that is not active leaves the current trip as it
      was; prepending an active one makes it current. */
  lemma CurrentTripAfterPrepend(t: Trip, trips: seq<Trip>)
    ensures t.status != Active ==> CurrentTrip([t] + trips) == CurrentTrip(trips)
    ensures t.status == Active ==> CurrentTrip([t] + trips) == Some(t)
  {
    assert ([t] + trips)[1..] == trips;
  }

  // ---------------------------------------------------------------------
  // The page state
  // ---------------------------------------------------------------------

  class NatpacPageState {
    var trips: seq<Trip>
    var userConsent: Option<UserConsent>
    var showConsentForm: bool
    var activeTab: Tab
    /** The two storage entries, `natpac-consent` and `natpac-trips`. */
    var storedConsent: Option<UserConsent>
    var storedTrips: Option<seq<Trip>>
    /** The pages asked for through `onNavigate`, in order. */
    var navigations: seq<string>

    /** The page once its mount effect has run over the stored entries: a
        stored consent is adopted and the form stays closed; without one
        the form opens. */
    constructor (savedConsent: Option<UserConsent>, savedTrips: Option<seq<Trip>>)
      ensures userConsent == savedConsent && showConsentForm == savedConsent.None?
      ensures trips == (if savedTrips.Some? then savedTrips.value else [])
      ensures activeTab == LoggerTab && navigations == []
      ensures storedConsent == savedConsent && storedTrips == savedTrips
    {
      trips := if savedTrips.Some? then savedTrips.value else [];
      userConsent := savedConsent;
      showConsentForm := savedConsent.None?;
      activeTab := LoggerTab;
      storedConsent := savedConsent;
      storedTrips := savedTrips;
      navigations := [];
    }

    /** What is rendered: the gate while there is no consent, otherwise
        the active tab. */
    function View(): (v: Screen)
      reads this
      ensures v.ConsentGate? <==> userConsent.None?
      ensures v.ConsentGate? ==> v.formOpen == showConsentForm
    {
      if userConsent.None? then ConsentGate(showConsentForm)
      else if activeTab == LoggerTab then LoggerScreen(CurrentTrip(trips))
      else HistoryScreen(trips)
    }

    method SelectTab(tab: Tab)
      modifies this`activeTab
      ensures activeTab == tab
    {
      activeTab := tab;
    }

    /** `handleConsentSubmit`: the consent is adopted and stored and the
        form closes. */
    method HandleConsentSubmit(consent: UserConsent)
      modifies this
      ensures userConsent == Some(consent) && storedConsent == Some(consent) && !showConsentForm
      ensures trips == old(trips) && storedTrips == old(storedTrips)
      ensures activeTab == old(activeTab) && navigations == old(navigations)
      ensures !View().ConsentGate?
    {
      userConsent := Some(consent);
      storedConsent := Some(consent);
      showConsentForm := false;
    }

    /** The consent form's `onClose`: the form closes and the page asks to
        go home. */
    method CloseConsentForm()
      modifies this`showConsentForm, this`navigations
      ensures !showConsentForm && navigations == old(navigations) + ["home"]
    {
      showConsentForm := false;
      navigations := navigations + ["home"];
    }

    /** `handleSaveTrip`: the completed record goes at the head of the list
        and the whole list is stored. */
    method HandleSaveTrip(data: TripData, id: string, now: int)
      modifies this`trips, this`storedTrips
      ensures trips == [NewTrip(data, userConsent, id, now)] + old(trips)
      ensures |trips| == |old(trips)| + 1 && trips[1..] == old(trips)
      ensures storedTrips == Some(trips)
    {
      var newTrip := NewTrip(data, userConsent, id, now);
      trips := [newTrip] + trips;
      storedTrips := Some(trips);
    }
  }
}

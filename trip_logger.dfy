/** The trip logger: a form that starts a trip, collects its destination,
    mode, purpose and companions, and on "end" hands the finished trip to
    the page and clears itself. */
module TripLogger {
  import opened JsText
  import opened Types
  import opened Seqs

  /** A geolocation fix: its coordinates, and the same coordinates as
      JavaScript renders them in a template string. */
  datatype Position = Position(latitude: real, longitude: real, latitudeText: string, longitudeText: string)

  /** The start location text filled in from a fix: `"{lat}, {lon}"`. */
  function LocationText(p: Position): string {
    p.latitudeText + ", " + p.longitudeText
  }

  // ---------------------------------------------------------------------
  // The companion list
  // ---------------------------------------------------------------------

  /** `addCompanion`: one more companion at the end, with no age, no gender
      and an empty relation. */
  function WithNewCompanion(companions: seq<Companion>, id: string): (r: seq<Companion>)
    ensures |r| == |companions| + 1
    ensures r[..|companions|] == companions
    ensures r[|companions|] == Companion(id, None, None, "")
  {
    var added := companions + [Companion(id, None, None, "")];
    assert added[..|companions|] == companions;
    added
  }

  /** The fields the companion form edits: `age` (from a number input),
      `gender` (from a select) and `relation` (free text). */
  datatype CompanionEdit = SetAge(age: Option<int>) | SetGender(gender: string) | SetRelation(relation: string)

  /** `{ ...companion, [field]: value }`. */
  function Edited(c: Companion, e: CompanionEdit): Companion {
    match e
    case SetAge(a) => c.(age := a)
    case SetGender(g) => c.(gender := Some(g))
    case SetRelation(r) => c.(relation := r)
  }

  /** An edit changes its own field alone. */
  lemma EditChangesOneField(c: Companion, e: CompanionEdit)
    ensures Edited(c, e).id == c.id
    ensures e.SetAge? ==>
      Edited(c, e).age == e.age && Edited(c, e).gender == c.gender && Edited(c, e).relation == c.relation
    ensures e.SetGender? ==>
      Edited(c, e).gender == Some(e.gender) && Edited(c, e).age == c.age && Edited(c, e).relation == c.relation
    ensures e.SetRelation? ==>
      Edited(c, e).relation == e.relation && Edited(c, e).age == c.age && Edited(c, e).gender == c.gender
  {
  }

  /** `updateCompanion(index, field, value)`: the list mapped with the edit
      applied to the entry at `index`. */
  function UpdatedCompanions(companions: seq<Companion>, index: int, e: CompanionEdit): seq<Companion> {
    seq(|companions|, i requires 0 <= i < |companions| =>
      if i == index then Edited(companions[i], e) else companions[i])
  }

  /** Only entry `index` changes, and only in the edited field; an index
      outside the list changes nothing. */
  lemma UpdateChangesOneEntry(companions: seq<Companion>, index: int, e: CompanionEdit)
    ensures |UpdatedCompanions(companions, index, e)| == |companions|
    ensures forall i :: 0 <= i < |companions| && i != index ==>
      UpdatedCompanions(companions, index, e)[i] == companions[i]
    ensures 0 <= index < |companions| ==>
      UpdatedCompanions(companions, index, e)[index] == Edited(companions[index], e)
    ensures !(0 <= index < |companions|) ==> UpdatedCompanions(companions, index, e) == companions
  {
  }

  /** `companions.filter((_, i) => i !== index)`, walking the list with
      the index counting down to the entry to drop. */
  function WithoutIndex(companions: seq<Companion>, index: int): (r: seq<Companion>)
    ensures 0 <= index < |companions| ==> r == companions[..index] + companions[index + 1..]
    ensures !(0 <= index < |companions|) ==> r == companions
    decreases |companions|
  {
    if companions == [] then []
    else
      var rest := WithoutIndex(companions[1..], index - 1);
      assert companions == [companions[0]] + companions[1..];
      if index == 0 then rest
      else
        assert 0 < index < |companions| ==>
          companions[1..][..index - 1] == companions[1..index] && companions[1..][index..] == companions[index + 1..];
        assert 0 < index < |companions| ==> companions[..index] == [companions[0]] + companions[1..index];
        [companions[0]] + rest
  }

  /** Removing an entry keeps the others in order, one fewer. */
  lemma RemoveKeepsOthers(companions: seq<Companion>, index: int)
    requires 0 <= index < |companions|
    ensures |WithoutIndex(companions, index)| == |companions| - 1
    ensures forall i :: 0 <= i < index ==> WithoutIndex(companions, index)[i] == companions[i]
    ensures forall i :: index < i < |companions| ==> WithoutIndex(companions, index)[i - 1] == companions[i]
  {
    var before, after := companions[..index], companions[index + 1..];
    var r := WithoutIndex(companions, index);
    assert r == before + after;
    forall i | 0 <= i < index ensures r[i] == companions[i] {
      assert r[i] == before[i];
    }
    forall i | index < i < |companions| ensures r[i - 1] == companions[i] {
      assert r[i - 1] == after[i - 1 - index];
    }
  }

  /** `parseInt(value) || undefined`: the age typed into the form, absent
      when it does not parse or is 0. */
  function AgeFromInput(text: string): (r: Option<int>)
    ensures r.Some? ==> r.value != 0
  {
    match ParseInt(text)
    case Some(n) => if n != 0 then Some(n) else None
    case None => None
  }

  /** A non-zero age written in decimal is read back as itself. */
  lemma AgeInputRoundTrip(n: int)
    requires n != 0
    ensures AgeFromInput(IntToString(n)) == Some(n)
  {
    ParseIntOfIntToString(n);
  }

  // ---------------------------------------------------------------------
  // The finished trip
  // ---------------------------------------------------------------------

  /** The trip `endTrip` hands to the page, from the form's state at the end
      time `now` and two fresh location ids. */
  function FinishedTrip(start: int, now: int, startLocation: string, destination: string,
                        mode: TransportMode, purpose: TripPurpose, companions: seq<Companion>,
                        fix: Option<Position>, originId: string, destinationId: string): TripData
  {
    var origin := Location(
      originId,
      if fix.Some? then fix.value.latitude else 0.0,
      if fix.Some? then fix.value.longitude else 0.0,
      startLocation,
      fix.Some?);
    TripData(
      Some("TRIP-" + IntToString(now)),
      Some(start),
      Some(now),
      Some(origin),
      Some(Location(destinationId, 0.0, 0.0, destination, false)),
      Some(mode),
      Some(purpose),
      Some(companions),
      Some([]),
      Some(Completed),
      Some(now))
  }

  /** The end button is enabled exactly when the destination has a
      character other than whitespace. */
  predicate CanEnd(destination: string) {
    Trim(destination) != ""
  }

  lemma CanEndIffNotBlank(destination: string)
    ensures CanEnd(destination) <==> exists k :: 0 <= k < |destination| && !IsSpace(destination[k])
  {
    TrimEmptyIffBlank(destination);
  }

  // ---------------------------------------------------------------------
  // The form state
  // ---------------------------------------------------------------------

  class TripLoggerForm {
    var isActive: bool
    var startLocation: string
    var destination: string
    var mode: TransportMode
    var purpose: TripPurpose
    var companions: seq<Companion>
    var currentLocation: Option<Position>
    var startTime: Option<int>

    /** The form as reset: not active, car, work, nothing filled in. */
    predicate IsCleared()
      reads this
    {
      !isActive && startLocation == "" && destination == "" && mode == Car && purpose == Work
      && companions == [] && startTime.None?
    }

    constructor ()
      ensures IsCleared() && currentLocation.None?
    {
      isActive := false;
      startLocation := "";
      destination := "";
      mode := Car;
      purpose := Work;
      companions := [];
      currentLocation := None;
      startTime := None;
    }

    /** The geolocation callback stores the fix. */
    method LocationFound(p: Position)
      modifies this
      ensures currentLocation == Some(p)
      ensures isActive == old(isActive) && startLocation == old(startLocation) && destination == old(destination)
      ensures mode == old(mode) && purpose == old(purpose) && companions == old(companions) && startTime == old(startTime)
    {
      currentLocation := Some(p);
    }

    method SetDestination(text: string)
      modifies this`destination
      ensures destination == text
    {
      destination := text;
    }

    method SetStartLocation(text: string)
      modifies this`startLocation
      ensures startLocation == text
    {
      startLocation := text;
    }

    method SetMode(m: TransportMode)
      modifies this`mode
      ensures mode == m
    {
      mode := m;
    }

    method SetPurpose(p: TripPurpose)
      modifies this`purpose
      ensures purpose == p
    {
      purpose := p;
    }

    /** `startTrip` at time `now`: active, started now, and the start
        location filled in from the fix when there is one. */
    method StartTrip(now: int)
      modifies this
      ensures isActive && startTime == Some(now)
      ensures startLocation == if currentLocation.Some? then LocationText(currentLocation.value) else old(startLocation)
      ensures destination == old(destination) && mode == old(mode) && purpose == old(purpose)
      ensures companions == old(companions) && currentLocation == old(currentLocation)
    {
      isActive := true;
      startTime := Some(now);
      if currentLocation.Some? {
        startLocation := LocationText(currentLocation.value);
      }
    }

    /** `resetForm`. */
    method ResetForm()
      modifies this
      ensures IsCleared() && currentLocation == old(currentLocation)
    {
      isActive := false;
      startLocation := "";
      destination := "";
      mode := Car;
      purpose := Work;
      companions := [];
      startTime := None;
    }

    /** `endTrip` at time `now`: without a start time nothing happens;
        otherwise the finished trip is handed on and the form reset. */
    method EndTrip(now: int, originId: string, destinationId: string) returns (saved: Option<TripData>)
      modifies this
      ensures old(startTime).None? ==> (saved.None?
        && isActive == old(isActive) && startLocation == old(startLocation) && destination == old(destination)
        && mode == old(mode) && purpose == old(purpose) && companions == old(companions) && startTime.None?)
      ensures old(startTime).Some? ==> saved == Some(FinishedTrip(old(startTime).value, now,
        old(startLocation), old(destination), old(mode), old(purpose), old(companions),
        old(currentLocation), originId, destinationId)) && IsCleared()
      ensures currentLocation == old(currentLocation)
    {
      if startTime.None? {
        return None;
      }
      var tripData := FinishedTrip(startTime.value, now, startLocation, destination, mode, purpose,
        companions, currentLocation, originId, destinationId);
      saved := Some(tripData);
      ResetForm();
    }

    method AddCompanion(id: string)
      modifies this`companions
      ensures companions == WithNewCompanion(old(companions), id)
    {
      companions := companions + [Companion(id, None, None, "")];
    }

    method UpdateCompanion(index: int, e: CompanionEdit)
      modifies this`companions
      ensures companions == UpdatedCompanions(old(companions), index, e)
    {
      companions := UpdatedCompanions(companions, index, e);
    }

    /** The age input's change handler. */
    method ChangeAge(index: int, text: string)
      modifies this`companions
      ensures companions == UpdatedCompanions(old(companions), index, SetAge(AgeFromInput(text)))
    {
      UpdateCompanion(index, SetAge(AgeFromInput(text)));
    }

    method RemoveCompanion(index: int)
      modifies this`companions
      ensures companions == WithoutIndex(old(companions), index)
    {
      companions := WithoutIndex(companions, index);
    }

    /** Whether the end button is enabled. */
    method EndEnabled() returns (enabled: bool)
      ensures enabled <==> exists k :: 0 <= k < |destination| && !IsSpace(destination[k])
    {
      CanEndIffNotBlank(destination);
      enabled := Trim(destination) != "";
    }
  }
}

/** The trip analytics dashboard: the duration label, the mode/purpose and
    date filters over the logged trips, and the statistics folds over the
    trips that pass. */
module TripHistory {
  import opened JsText
  import opened Types
  import opened Seqs
  import TripLogger

  const MinuteMs: int := 60000
  const DayMs: int := 86400000

  // ---------------------------------------------------------------------
  // The duration label
  // ---------------------------------------------------------------------

  /** `formatDuration`: "Ongoing" without an end time; otherwise whole
      minutes (rounded down) as `"{h}h {m}m"` when there is at least one
      whole hour, else as `"{m}m"`. */
  function FormatDuration(start: int, end: Option<int>): (r: string)
    ensures end.None? <==> r == "Ongoing"
    ensures end.Some? ==> |r| >= 2 && r[|r| - 1] == 'm'
  {
    if end.None? then "Ongoing"
    else
      var minutes := (end.value - start) / MinuteMs;
      var hours := minutes / 60;
      var r := if hours > 0 then IntToString(hours) + "h " + IntToString(minutes % 60) + "m"
        else IntToString(minutes) + "m";
      assert r[|r| - 1] == 'm';
      assert "Ongoing"[6] == 'g';
      r
  }

  /** The label has the hours form exactly when at least an hour passed:
      then it is `h` hours, at least one, and `m` minutes, below sixty,
      that make up the elapsed minutes; otherwise it is the elapsed
      minutes, with their sign, and `m`, and has no `h`. */
  lemma FormatDurationForm(start: int, end: int)
    ensures var r := FormatDuration(start, Some(end));
      var minutes := (end - start) / MinuteMs;
      && ('h' in r <==> minutes >= 60)
      && (minutes >= 60 ==> exists h: nat, m: nat ::
            1 <= h && m < 60 && h * 60 + m == minutes && r == NatToString(h) + "h " + NatToString(m) + "m")
      && (minutes < 60 ==> r == IntToString(minutes) + "m")
  {
    var minutes := (end - start) / MinuteMs;
    var hours := minutes / 60;
    var r := FormatDuration(start, Some(end));
    if hours > 0 {
      var rest := minutes % 60;
      assert r == IntToString(hours) + "h " + IntToString(rest) + "m";
      HoursLabel(r, hours, rest, minutes);
    } else {
      assert r == IntToString(minutes) + "m";
      MinutesLabel(r, minutes);
    }
  }

  /** The hours form of the label holds an `h` and shows its hours and
      minutes. */
  lemma HoursLabel(r: string, h: int, m: int, minutes: int)
    requires 1 <= h && 0 <= m < 60 && h * 60 + m == minutes
    requires r == IntToString(h) + "h " + IntToString(m) + "m"
    ensures 'h' in r && minutes >= 60
    ensures exists h': nat, m': nat ::
      1 <= h' && m' < 60 && h' * 60 + m' == minutes && r == NatToString(h') + "h " + NatToString(m') + "m"
  {
    assert r[|IntToString(h)|] == 'h';
    assert r == NatToString(h) + "h " + NatToString(m) + "m";
  }

  /** The minutes form of the label has no `h`. */
  lemma MinutesLabel(r: string, minutes: int)
    requires r == IntToString(minutes) + "m"
    ensures 'h' !in r
  {
    var d := IntToString(minutes);
    NoHInIntToString(minutes);
    forall j | 0 <= j < |r| ensures r[j] != 'h' {
      if j < |d| {
        assert r[j] == d[j];
      }
    }
  }

  /** A rendered integer holds no `h`. */
  lemma NoHInIntToString(i: int)
    ensures 'h' !in IntToString(i)
  {
    var n: nat := if i < 0 then -i else i;
    var d := NatToString(n);
    DigitsHaveNoH(d);
    var s := IntToString(i);
    if i < 0 {
      assert s == "-" + d;
      forall j | 0 <= j < |s| ensures s[j] != 'h' {
        if j > 0 {
          assert s[j] == d[j - 1];
        }
      }
    } else {
      assert s == d;
    }
  }

  predicate IsH(c: char) {
    c == 'h'
  }

  /** A non-empty run of decimal digits, read as a number. */
  function ReadNat(s: string): Option<nat> {
    if s != [] && AllDigits(s) then
      DigitsAreRadix10(s);
      Some(ValueIn(s, 10))
    else None
  }

  /** Reads a duration label back to its minutes: `"{m}m"`, or
      `"{h}h {m}m"` as `h * 60 + m`. */
  function ReadDuration(s: string): Option<int> {
    if |s| < 2 || s[|s| - 1] != 'm' then None
    else
      var body := s[..|s| - 1];
      var hAt := FindFirst(body, IsH);
      if hAt.None? then
        match ReadNat(body)
        case None => None
        case Some(m) => Some(m)
      else
        var k := hAt.value;
        var after := body[k + 1..];
        if after == [] || after[0] != ' ' then None
        else
          match (ReadNat(body[..k]), ReadNat(after[1..]))
          case (Some(h), Some(m)) => Some(h * 60 + m)
          case _ => None
  }

  /** The rendering of a number has no `h`. */
  lemma DigitsHaveNoH(d: string)
    requires AllDigits(d)
    ensures forall j :: 0 <= j < |d| ==> !IsH(d[j])
  {
    forall j | 0 <= j < |d| ensures !IsH(d[j]) {
      assert IsDigit(d[j]);
    }
  }

  lemma ReadNatOfNatToString(n: nat)
    ensures ReadNat(NatToString(n)) == Some(n)
  {
    NatToStringValue(n);
  }

  lemma ReadMinutesOnly(m: nat)
    ensures ReadDuration(NatToString(m) + "m") == Some(m)
  {
    var s := NatToString(m) + "m";
    var body := s[..|s| - 1];
    assert body == NatToString(m);
    DigitsHaveNoH(body);
    ReadNatOfNatToString(m);
  }

  /** The first `h` after a run of digits is the one that ends the run. */
  lemma FirstHAfterDigits(hs: string, rest: string)
    requires AllDigits(hs)
    ensures FindFirst(hs + "h" + rest, IsH) == Some(|hs|)
  {
    var body := hs + "h" + rest;
    DigitsHaveNoH(hs);
    assert IsH(body[|hs|]);
    forall j | 0 <= j < |hs| ensures !IsH(body[j]) {
      assert body[j] == hs[j];
    }
  }

  /** `ReadDuration` on a label whose first `h` sits at `k` and is followed
      by a space. */
  lemma ReadHourForm(s: string, k: nat, hs: string, ms: string, h: nat, m: nat)
    requires |s| >= 2 && s[|s| - 1] == 'm'
    requires FindFirst(s[..|s| - 1], IsH) == Some(k)
    requires s[..|s| - 1][..k] == hs && s[..|s| - 1][k + 1..] == " " + ms
    requires ReadNat(hs) == Some(h) && ReadNat(ms) == Some(m)
    ensures ReadDuration(s) == Some(h * 60 + m)
  {
    assert (" " + ms)[1..] == ms;
  }

  /** `"{hs}h {ms}m"` for two digit runs reads back as `h * 60 + m`, where
      `h` and `m` are the values of the runs. */
  lemma ReadDigitHoursAndMinutes(hs: string, ms: string, h: nat, m: nat)
    requires AllDigits(hs) && ReadNat(hs) == Some(h) && ReadNat(ms) == Some(m)
    ensures ReadDuration(hs + "h " + ms + "m") == Some(h * 60 + m)
  {
    var s := hs + "h " + ms + "m";
    assert |s| >= 2 && s[|s| - 1] == 'm';
    var body := s[..|s| - 1];
    assert FindFirst(body, IsH) == Some(|hs|) && body[..|hs|] == hs && body[|hs| + 1..] == " " + ms by {
      assert body == hs + "h" + (" " + ms);
      FirstHAfterDigits(hs, " " + ms);
    }
    ReadHourForm(s, |hs|, hs, ms, h, m);
  }

  lemma ReadHoursAndMinutes(h: nat, m: nat)
    ensures ReadDuration(NatToString(h) + "h " + NatToString(m) + "m") == Some(h * 60 + m)
  {
    ReadNatOfNatToString(h);
    ReadNatOfNatToString(m);
    ReadDigitHoursAndMinutes(NatToString(h), NatToString(m), h, m);
  }

  /** The label of an ended trip reads back as its whole minutes. */
  lemma FormatDurationRoundTrip(start: int, end: int)
    requires start <= end
    ensures ReadDuration(FormatDuration(start, Some(end))) == Some((end - start) / MinuteMs)
  {
    var minutes := (end - start) / MinuteMs;
    var shown := FormatDuration(start, Some(end));
    FormatDurationForm(start, end);
    if minutes >= 60 {
      var h: nat, m: nat :| 1 <= h && m < 60 && h * 60 + m == minutes
        && shown == NatToString(h) + "h " + NatToString(m) + "m";
      ReadHoursAndMinutes(h, m);
    } else {
      assert minutes >= 0;
      assert shown == NatToString(minutes) + "m";
      ReadMinutesOnly(minutes);
    }
  }

  // ---------------------------------------------------------------------
  // Filtering
  // ---------------------------------------------------------------------

  /** The date filter of the dashboard. */
  datatype DateRange = PastWeek | PastMonth | AnyDate

  /** The mode/purpose filter: `all`, or a trip whose mode or purpose has
      the selected value. */
  predicate MatchesCategory(t: Trip, filter: string) {
    filter == "all" || ModeName(t.mode) == filter || PurposeName(t.purpose) == filter
  }

  /** `daysAgo > 7` (or `> 30`) drops a trip; `daysAgo` is the difference
      in milliseconds divided by the length of a day, so the test is the
      same on the milliseconds. */
  predicate WithinRange(t: Trip, range: DateRange, now: int) {
    match range
    case PastWeek => !(now - t.startTime > 7 * DayMs)
    case PastMonth => !(now - t.startTime > 30 * DayMs)
    case AnyDate => true
  }

  predicate Shown(t: Trip, filter: string, range: DateRange, now: int) {
    MatchesCategory(t, filter) && WithinRange(t, range, now)
  }

  function ShownBy(filter: string, range: DateRange, now: int): Trip -> bool {
    (t: Trip) => Shown(t, filter, range, now)
  }

  /** `filteredTrips`. */
  function FilteredTrips(trips: seq<Trip>, filter: string, range: DateRange, now: int): seq<Trip> {
    Filter(trips, ShownBy(filter, range, now))
  }

  /** A trip is listed exactly when it is logged and passes both filters. */
  lemma FilteredTripsExactly(trips: seq<Trip>, filter: string, range: DateRange, now: int)
    ensures forall t :: (t in FilteredTrips(trips, filter, range, now)
      <==> t in trips && MatchesCategory(t, filter) && WithinRange(t, range, now))
  {
    MembersExactly(FilteredTrips(trips, filter, range, now), trips, ShownBy(filter, range, now));
  }

  /** Listed trips keep their logged order: the trips of an earlier part of
      the log come before those of a later part. */
  lemma FilteredTripsKeepOrder(a: seq<Trip>, b: seq<Trip>, filter: string, range: DateRange, now: int)
    ensures FilteredTrips(a + b, filter, range, now)
         == FilteredTrips(a, filter, range, now) + FilteredTrips(b, filter, range, now)
  {
    FilterConcat(a, b, ShownBy(filter, range, now));
  }

  /** `all` with no date limit lists every trip. */
  lemma UnfilteredShowsAll(trips: seq<Trip>, now: int)
    ensures FilteredTrips(trips, "all", AnyDate, now) == trips
  {
    FilterKeepsAll(trips, ShownBy("all", AnyDate, now));
  }

  /** Selecting a mode other than `other` lists only trips of that mode:
      no purpose shares its name. */
  lemma ModeFilterKeepsMode(trips: seq<Trip>, m: TransportMode, range: DateRange, now: int)
    requires m != OtherMode
    ensures forall i :: 0 <= i < |FilteredTrips(trips, ModeName(m), range, now)| ==>
      FilteredTrips(trips, ModeName(m), range, now)[i].mode == m
  {
    var r := FilteredTrips(trips, ModeName(m), range, now);
    forall i | 0 <= i < |r| ensures r[i].mode == m {
      assert ShownBy(ModeName(m), range, now)(r[i]);
      ShownUnderModeName(r[i], m, range, now);
    }
  }

  /** A trip shown under a mode's name, other than `other`, has that mode. */
  lemma ShownUnderModeName(t: Trip, m: TransportMode, range: DateRange, now: int)
    requires m != OtherMode && Shown(t, ModeName(m), range, now)
    ensures t.mode == m
  {
    NamesDistinct(t.mode, m, t.purpose);
  }

  // ---------------------------------------------------------------------
  // Statistics
  // ---------------------------------------------------------------------

  /** The legs' distances summed left to right, a missing one as 0. */
  function LegsDistance(legs: seq<TripLeg>): real {
    if legs == [] then 0.0
    else
      var last := legs[|legs| - 1];
      LegsDistance(legs[..|legs| - 1]) + (if last.distance.Some? then last.distance.value else 0.0)
  }

  /** `totalDistance`: the distance of every trip's legs, summed. */
  function TotalDistance(trips: seq<Trip>): real {
    if trips == [] then 0.0
    else TotalDistance(trips[..|trips| - 1]) + LegsDistance(trips[|trips| - 1].legs)
  }

  /** The total distance of a log is that of its parts. */
  lemma {:induction false} TotalDistanceConcat(a: seq<Trip>, b: seq<Trip>)
    ensures TotalDistance(a + b) == TotalDistance(a) + TotalDistance(b)
    decreases |b|
  {
    if b != [] {
      assert (a + b)[..|a + b| - 1] == a + b[..|b| - 1];
      TotalDistanceConcat(a, b[..|b| - 1]);
    } else {
      assert a + b == a;
    }
  }

  predicate NoNegativeLeg(legs: seq<TripLeg>) {
    forall i :: 0 <= i < |legs| ==> legs[i].distance.Some? ==> legs[i].distance.value >= 0.0
  }

  lemma {:induction false} LegsDistanceNonNegative(legs: seq<TripLeg>)
    requires NoNegativeLeg(legs)
    ensures LegsDistance(legs) >= 0.0
    decreases |legs|
  {
    if legs != [] {
      var init := legs[..|legs| - 1];
      assert NoNegativeLeg(init) by {
        forall i | 0 <= i < |init| ensures init[i] == legs[i] { }
      }
      LegsDistanceNonNegative(init);
    }
  }

  /** The total distance is never negative when no leg is. */
  lemma {:induction false} TotalDistanceNonNegative(trips: seq<Trip>)
    requires forall i :: 0 <= i < |trips| ==> NoNegativeLeg(trips[i].legs)
    ensures TotalDistance(trips) >= 0.0
    decreases |trips|
  {
    if trips != [] {
      var init := trips[..|trips| - 1];
      assert forall i :: 0 <= i < |init| ==> init[i] == trips[i];
      TotalDistanceNonNegative(init);
      LegsDistanceNonNegative(trips[|trips| - 1].legs);
    }
  }

  /** A trip's duration in milliseconds; a trip without an end adds 0. */
  function Elapsed(t: Trip): int {
    if t.endTime.Some? then t.endTime.value - t.startTime else 0
  }

  function DurationSum(trips: seq<Trip>): int {
    if trips == [] then 0 else DurationSum(trips[..|trips| - 1]) + Elapsed(trips[|trips| - 1])
  }

  /** `averageDuration` in minutes: 0 without trips. */
  function AverageDuration(trips: seq<Trip>): real {
    if |trips| > 0 then (DurationSum(trips) as real) / (|trips| as real) / (MinuteMs as real) else 0.0
  }

  /** A trip still open adds nothing to the duration sum, and an ended
      trip adds its end minus its start. */
  lemma DurationSumAppend(trips: seq<Trip>, t: Trip)
    ensures t.endTime.None? ==> DurationSum(trips + [t]) == DurationSum(trips)
    ensures t.endTime.Some? ==> DurationSum(trips + [t]) == DurationSum(trips) + t.endTime.value - t.startTime
  {
    assert (trips + [t])[..|trips + [t]| - 1] == trips;
  }

  /** When every trip lasted the same `d` milliseconds the average is `d`
      in minutes. */
  lemma {:induction false} UniformDurationSum(trips: seq<Trip>, d: int)
    requires forall i :: 0 <= i < |trips| ==> Elapsed(trips[i]) == d
    ensures DurationSum(trips) == |trips| * d
    decreases |trips|
  {
    if trips != [] {
      var init := trips[..|trips| - 1];
      assert forall i :: 0 <= i < |init| ==> init[i] == trips[i];
      UniformDurationSum(init, d);
    }
  }

  lemma UniformAverage(trips: seq<Trip>, d: int)
    requires |trips| > 0
    requires forall i :: 0 <= i < |trips| ==> Elapsed(trips[i]) == d
    ensures AverageDuration(trips) == (d as real) / (MinuteMs as real)
  {
    UniformDurationSum(trips, d);
    CancelCount(|trips|, d, DurationSum(trips), MinuteMs as real);
  }

  /** A sum of `k` equal terms `d`, averaged over `k`, is `d`. */
  lemma CancelCount(k: int, d: int, sum: int, m: real)
    requires k > 0 && m > 0.0 && sum == k * d
    ensures (sum as real) / (k as real) / m == (d as real) / m
  {
    assert sum as real == (k as real) * (d as real);
    assert ((k as real) * (d as real)) / (k as real) == d as real;
  }

  /** The number of trips travelled by mode `m`. */
  function CountMode(trips: seq<Trip>, m: TransportMode): nat {
    if trips == [] then 0
    else CountMode(trips[..|trips| - 1], m) + (if trips[|trips| - 1].mode == m then 1 else 0)
  }

  /** The mode counts summed over a list of modes. */
  function ModeTotal(trips: seq<Trip>, modes: seq<TransportMode>): nat {
    if modes == [] then 0 else CountMode(trips, modes[0]) + ModeTotal(trips, modes[1..])
  }

  lemma {:induction false} ModeTotalAppend(trips: seq<Trip>, t: Trip, modes: seq<TransportMode>)
    ensures ModeTotal(trips + [t], modes) == ModeTotal(trips, modes) + Occurrences(modes, t.mode)
    decreases |modes|
  {
    if modes != [] {
      assert (trips + [t])[..|trips + [t]| - 1] == trips;
      ModeTotalAppend(trips, t, modes[1..]);
    }
  }

  /** How often `m` is listed in `modes`. */
  function Occurrences(modes: seq<TransportMode>, m: TransportMode): nat {
    if modes == [] then 0 else (if modes[0] == m then 1 else 0) + Occurrences(modes[1..], m)
  }

  lemma {:induction false} NotListed(modes: seq<TransportMode>, m: TransportMode)
    requires forall i :: 0 <= i < |modes| ==> modes[i] != m
    ensures Occurrences(modes, m) == 0
    decreases |modes|
  {
    if modes != [] {
      NotListed(modes[1..], m);
    }
  }

  /** A listed mode occurs once in a list without repeats. */
  lemma {:induction false} ListedOnce(modes: seq<TransportMode>, m: TransportMode)
    requires m in modes
    requires forall i, j :: 0 <= i < j < |modes| ==> modes[i] != modes[j]
    ensures Occurrences(modes, m) == 1
    decreases |modes|
  {
    if modes[0] == m {
      NotListed(modes[1..], m);
    } else {
      ListedOnce(modes[1..], m);
    }
  }

  /** Every trip is counted under exactly one mode. */
  lemma {:induction false} CountsSumToTotal(trips: seq<Trip>)
    ensures ModeTotal(trips, AllModes) == |trips|
    decreases |trips|
  {
    if trips == [] {
      var modes := AllModes;
      assert forall k :: 0 <= k <= |modes| ==> ModeTotal([], modes[k..]) == 0 by {
        forall k | 0 <= k <= |modes| ensures ModeTotal([], modes[k..]) == 0 {
          ZeroTotal(modes[k..]);
        }
      }
      assert modes[0..] == modes;
    } else {
      var init := trips[..|trips| - 1];
      assert trips == init + [trips[|trips| - 1]];
      CountsSumToTotal(init);
      ModeTotalAppend(init, trips[|trips| - 1], AllModes);
      AllModesComplete(trips[|trips| - 1].mode);
      ListedOnce(AllModes, trips[|trips| - 1].mode);
    }
  }

  lemma {:induction false} ZeroTotal(modes: seq<TransportMode>)
    ensures ModeTotal([], modes) == 0
    decreases |modes|
  {
    if modes != [] {
      ZeroTotal(modes[1..]);
    }
  }

  /** A mode counted at least once is the mode of some trip. */
  lemma {:induction false} CountedModeOccurs(trips: seq<Trip>, m: TransportMode)
    requires CountMode(trips, m) > 0
    ensures exists i :: 0 <= i < |trips| && trips[i].mode == m
    decreases |trips|
  {
    var init := trips[..|trips| - 1];
    if trips[|trips| - 1].mode != m {
      CountedModeOccurs(init, m);
      var i :| 0 <= i < |init| && init[i].mode == m;
      assert trips[i] == init[i];
    }
  }

  /** The histogram's counts summed over every mode. */
  function HistogramTotal(dist: map<TransportMode, nat>, modes: seq<TransportMode>): nat {
    if modes == [] then 0
    else (if modes[0] in dist then dist[modes[0]] else 0) + HistogramTotal(dist, modes[1..])
  }

  lemma {:induction false} HistogramTotalIsModeTotal(dist: map<TransportMode, nat>, trips: seq<Trip>, modes: seq<TransportMode>)
    requires forall m :: m in dist ==> dist[m] == CountMode(trips, m)
    requires forall m :: CountMode(trips, m) > 0 ==> m in dist
    ensures HistogramTotal(dist, modes) == ModeTotal(trips, modes)
    decreases |modes|
  {
    if modes != [] {
      HistogramTotalIsModeTotal(dist, trips, modes[1..]);
    }
  }

  /** `modeDistribution`: one entry per mode that occurs, holding how many
      trips used it, built trip by trip. */
  method ModeDistribution(trips: seq<Trip>) returns (dist: map<TransportMode, nat>)
    ensures forall m :: m in dist <==> CountMode(trips, m) > 0
    ensures forall m :: m in dist ==> dist[m] == CountMode(trips, m)
    ensures forall m :: m in dist ==> exists i :: 0 <= i < |trips| && trips[i].mode == m
    ensures HistogramTotal(dist, AllModes) == |trips|
  {
    dist := map[];
    for i := 0 to |trips|
      invariant forall m :: m in dist <==> CountMode(trips[..i], m) > 0
      invariant forall m :: m in dist ==> dist[m] == CountMode(trips[..i], m)
    {
      assert trips[..i + 1][..i] == trips[..i];
      var mode := trips[i].mode;
      dist := dist[mode := (if mode in dist then dist[mode] else 0) + 1];
    }
    assert trips[..|trips|] == trips;
    forall m | m in dist ensures exists i :: 0 <= i < |trips| && trips[i].mode == m {
      CountedModeOccurs(trips, m);
    }
    HistogramTotalIsModeTotal(dist, trips, AllModes);
    CountsSumToTotal(trips);
  }

  /** The statistics panel over the listed trips. */
  datatype Stats = Stats(totalTrips: nat, totalDistance: real, averageDuration: real, modeDistribution: map<TransportMode, nat>)

  method ComputeStats(filtered: seq<Trip>) returns (s: Stats)
    ensures s.totalTrips == |filtered|
    ensures s.totalDistance == TotalDistance(filtered)
    ensures s.averageDuration == AverageDuration(filtered)
    ensures |filtered| == 0 ==> s.averageDuration == 0.0 && s.modeDistribution == map[]
    ensures forall m :: m in s.modeDistribution ==> s.modeDistribution[m] == CountMode(filtered, m)
    ensures HistogramTotal(s.modeDistribution, AllModes) == s.totalTrips
  {
    var dist := ModeDistribution(filtered);
    if |filtered| == 0 {
      assert forall m :: CountMode(filtered, m) == 0;
      assert dist == map[];
    }
    s := Stats(|filtered|, TotalDistance(filtered), AverageDuration(filtered), dist);
  }

  /** The traveller count on a trip card: the companions and the user. */
  function TravellerCount(t: Trip): nat {
    |t.companions| + 1
  }

  /** The user always counts, and each companion added in the logger's
      form is one traveller more. */
  lemma AddedCompanionCounts(t: Trip, id: string)
    ensures TravellerCount(t) >= 1
    ensures TravellerCount(t.(companions := TripLogger.WithNewCompanion(t.companions, id))) == TravellerCount(t) + 1
  {
  }

  /** Removing the companion at an index in range is one traveller fewer;
      an index out of range changes nothing. */
  lemma RemovedCompanionCounts(t: Trip, index: int)
    ensures var u := t.(companions := TripLogger.WithoutIndex(t.companions, index));
      TravellerCount(u) == if 0 <= index < |t.companions| then TravellerCount(t) - 1 else TravellerCount(t)
  {
  }
}

# A verified model of the travel site's package listing, backend and trip logger

The repository is a React travel site with a small Express backend. It has
two halves that hold logic:

- **Package listing.** The packages page merges the catalogue with the
  packages travel agents have added in the browser. It filters them by a
  search term, category, price band, duration bucket and minimum rating,
  sorts them by one of five rules and shows at most fifteen. The agent form
  builds the packages the page later lists.
- **NATPAC trip logger.** A consent form gates the logger. The logger
  records trips (start, end, companions). The page fills in defaults and
  keeps the trips newest first. The history tab filters the trips and
  computes statistics.

The backend stores packages, contact messages and users in JSON files. It
answers package lookups, contact posts, registrations and logins.

This project models those parts in Dafny and proves what they promise.

- **Modules.** One module per source file, plus three shared ones:
  - `JsText` models the JavaScript string and number primitives the code
    relies on: `trim`, `toLowerCase`, `includes`, `split`, `replace` of a
    character class, `parseInt`, `parseFloat`, `Number(...)` and number
    rendering.
  - `Seqs` models `filter`, `find` and `slice`.
  - `Sorting` models `Array.prototype.sort` with the comparators the page
    uses (section 23.1.3.30 of ECMA-262): stable, with a NaN comparison
    counted as "equal".
  - `Types` holds the records.
- **Shape in Dafny.** Components and the server keep their mutable state
  as Dafny classes: React state hooks become fields, and the JSON files
  become `Option<seq<...>>` fields, where `None` is a file that reads as
  `null`. Their handlers become methods. Each method is specified by a pure
  function, and the lemmas are stated over that function.
- **Inputs.** Times, ids, geolocation fixes and stored values are
  parameters.

One place where the page's intent and its code differ: the `'1-3 Days'`
duration bucket is the regular expression `/(1D|2D|3D)/`. That is a
substring test, so a `"12D/11N"` package matches it through `2D` as well as
matching `'8-14 Days'` (`PackagesPage.TwelveDaysInTwoBuckets`). The labels
read as ranges of the leading day count, which is how `'15+ Days'` already
works. `PackagesPage.InIntendedBucket` states that reading. Under it, no
duration is in two offered buckets, and `"12D/11N"` is in `8-14 Days` only.
The page model keeps the substring tests the code has.

A second behaviour worth knowing: after a successful consent submit, the
form calls `onClose` as well. The NATPAC page's `onClose` closes the form
and navigates to the home page (`ConsentForm.SubmitGate`,
`NatpacPage.NatpacPageState.CloseConsentForm`).

## Model

| member | source | states |
|---|---|---|
| JsText.TrimIsInnerSlice | project/src/components/Travelagents/TravelAgents.tsx:32 | `trim` returns a slice of its input. Only whitespace is cut away, and the result neither starts nor ends with whitespace. |
| JsText.TrimEmptyIffBlank | project/src/components/trip/TripLogger.tsx:310 | A trimmed string is empty exactly when every character is whitespace. |
| JsText.TrimIdempotent | project/src/components/Travelagents/TravelAgents.tsx:32 | Trimming twice is trimming once. |
| JsText.LowerKeepsContains | project/src/pages/PackagesPage.tsx:40-42 | Under ASCII lower-casing, a text containing a term still contains the lower-cased term. |
| JsText.ContainsInfix | project/src/pages/PackagesPage.tsx:40-42 | `includes` finds a term between any prefix and suffix. |
| JsText.DeleteChars | project/src/pages/PackagesPage.tsx:53 | `replace(/[₹,]/g, '')` leaves no deleted character and never lengthens the text. A text without those characters is returned unchanged. |
| JsText.DeleteCharsConcat | project/src/pages/PackagesPage.tsx:53 | Deleting characters distributes over concatenation. |
| JsText.Split | project/src/components/Travelagents/TravelAgents.tsx:32 | `split(',')` always yields at least one piece. |
| JsText.SplitJoin | project/src/components/Travelagents/TravelAgents.tsx:32 | There is one more piece than there are separators. No piece holds the separator, and joining the pieces with it restores the input. |
| JsText.LeadingDigits | project/src/pages/PackagesPage.tsx:53 | `parseInt` reads the longest prefix of the text made only of digits of the radix. |
| JsText.NatToString | backend/server.js:90 | The decimal rendering of a number is a non-empty run of digits. |
| JsText.NatToStringValue | backend/server.js:78 | The decimal rendering of `n` has the value `n`. |
| JsText.ParseIntOfDigits | project/src/pages/PackagesPage.tsx:53 | `parseInt` of a non-empty digit run is the value of those digits. |
| JsText.ParseIntOfIntToString | project/src/components/trip/TripLogger.tsx:275 | `parseInt` undoes the decimal rendering of any integer, including negatives. |
| JsText.RatingChoicesParse | project/src/pages/PackagesPage.tsx:32 | The four rating thresholds `4.5`, `4`, `3.5` and `3` parse as exactly those values. |
| JsText.ToNumberOfBlank | project/src/pages/PackagesPage.tsx:78-89 | `Number(...)` of a blank text is 0, while `parseFloat` of it is NaN. |
| JsText.ToNumberOfDigits | project/src/pages/PackagesPage.tsx:78-89 | `Number(...)` of a run of digits is the number it writes, the same as `parseFloat`. |
| JsText.ToNumberOfDecimal | project/src/pages/PackagesPage.tsx:78-89 | `Number(...)` of a decimal literal `d.f` with fraction digits is its value, the same as `parseFloat`. |
| JsText.ToNumberOfDigitDotDigit | project/src/pages/PackagesPage.tsx:78-89 | `Number(...)` and `parseFloat` agree on a digit, a point and a digit. |
| JsText.DecimalPrefix | project/src/pages/PackagesPage.tsx:78 | The decimal literal `parseFloat` reads is a non-empty prefix of the text. |
| Seqs.Filter | project/src/pages/PackagesPage.tsx:39-79 | `filter` keeps every element that passes and only such elements, each from the input and no element more often than it occurs. |
| Seqs.FilterConcat | project/src/pages/PackagesPage.tsx:36 | Filtering a concatenation filters each part. |
| Seqs.FilterTwice | project/src/pages/PackagesPage.tsx:38-79 | Two filters in a row are one filter on the conjunction. |
| Seqs.FilterIfAfterFilter | project/src/pages/PackagesPage.tsx:38-79 | A stage that runs only when its option is set, after earlier stages, is one filter on the combined verdict. |
| Seqs.FindFirst | project/src/pages/NatpacPage.tsx:215 | `find` returns the first index that passes, or none exactly when no element passes. |
| Sorting.Sort | project/src/pages/PackagesPage.tsx:81-98 | The sort rearranges its input: the same elements, each as often. |
| Sorting.SortKeepsElements | project/src/pages/PackagesPage.tsx:81-98 | Every sorted element is an input element and every input element is in the result. |
| Sorting.SortIsSorted | project/src/pages/PackagesPage.tsx:81-98 | With no NaN comparison the result is in key order. |
| Sorting.SortTwoGroups | project/src/pages/PackagesPage.tsx:94-96 | A key that ranks one group at -1 and the rest at 0 lists that group first and the rest after, each in input order. The sort is stable. |
| Types.NamesDistinct | project/src/components/trip/TripHistory.tsx:61 | Mode names tell modes apart and no name is `all`. A mode name equals a purpose name only for `other`. |
| Types.AllModesComplete | project/src/components/trip/TripHistory.tsx:85-88 | The list of modes names every mode once. |
| PackagesPage.ApplyFiltersIsOneFilter | project/src/pages/PackagesPage.tsx:38-79 | The five stages applied in order, each skipped when its option is empty, are one filter on "passes every active filter". |
| PackagesPage.SortPackagesKeeps | project/src/pages/PackagesPage.tsx:81-98 | Every sort rule rearranges the packages without adding or changing any. |
| PackagesPage.PriceLowAscending | project/src/pages/PackagesPage.tsx:82-84 | Over parseable prices, `price-low` gives non-decreasing prices. |
| PackagesPage.PriceHighDescending | project/src/pages/PackagesPage.tsx:85-87 | Over parseable prices, `price-high` gives non-increasing prices. |
| PackagesPage.TypedRatesAsItsNumber | project/src/pages/PackagesPage.tsx:78-89 | A typed rating that `Number(...)` reads as `v` passes the rating filter and gets the `rating` sort key exactly as the score `v` does. |
| PackagesPage.SameValueFiltersSame | project/src/pages/PackagesPage.tsx:78 | Two ratings with the same numeric value pass the rating filter alike. |
| PackagesPage.ByRatingKey | project/src/pages/PackagesPage.tsx:88-89 | The `rating` key is the negated numeric rating, and there is none when the rating is not a number. |
| PackagesPage.BlankRatingIsZero | project/src/pages/PackagesPage.tsx:78-89 | A blank typed rating filters and ranks as 0. |
| PackagesPage.TypedFourPointFive | project/src/pages/PackagesPage.tsx:78-89 | A rating typed as `4.5` passes the `4.5` threshold and is keyed as 4.5. |
| PackagesPage.RatingDescending | project/src/pages/PackagesPage.tsx:88-90 | Over numeric ratings, `rating` gives non-increasing ratings. |
| PackagesPage.ReviewsDescending | project/src/pages/PackagesPage.tsx:91-93 | Over packages with review counts, `reviews` gives non-increasing counts. |
| PackagesPage.FeaturedSortSplits | project/src/pages/PackagesPage.tsx:94-97 | `featured`, and any unknown rule, lists every featured package before every other one, each group in input order. |
| PackagesPage.SortedMatches | project/src/pages/PackagesPage.tsx:36-98 | The sorted matches are exactly the merged packages that pass every active filter. |
| PackagesPage.QuerySound | project/src/pages/PackagesPage.tsx:34-101 | The listing holds `min(15, matches)` packages. Each is an unaltered catalogue or added package that passes every active filter. |
| PackagesPage.QueryUnderCapIsSorted | project/src/pages/PackagesPage.tsx:81-100 | With at most fifteen matches, the listing is all of them in the selected order. |
| PackagesPage.QueryPermutesMatchesUnderCap | project/src/pages/PackagesPage.tsx:81-100 | With at most fifteen matches, the listing is a permutation of the matches. |
| PackagesPage.QueryCompleteUnderCap | project/src/pages/PackagesPage.tsx:34-101 | With at most fifteen matches, a package is listed exactly when it is a merged package that passes every active filter. |
| PackagesPage.NoFiltersKeepAll | project/src/pages/PackagesPage.tsx:38-79 | An empty search with every filter off keeps every package. |
| PackagesPage.ClearedQuery | project/src/pages/PackagesPage.tsx:103-106 | With the cleared settings only the featured ordering and the cap of fifteen apply. |
| PackagesPage.PriceBandFacts | project/src/pages/PackagesPage.tsx:52-60 | `On Request` passes every band. Any other price without leading digits fails all four bands. 25000 is in both middle bands. |
| PackagesPage.PriceBands | project/src/pages/PackagesPage.tsx:54-59 | A parsed price lies in each band exactly when it lies between the band's bounds. |
| PackagesPage.GroupedPriceValue | project/src/pages/PackagesPage.tsx:53 | A rupee price written with a thousands comma reads as its digits. |
| PackagesPage.BudgetPriceBand | project/src/pages/PackagesPage.tsx:53-59 | The catalogue's `₹7,999`, taken as the rupee sign, `7`, a comma and `999`, reads as 7999 and is in the under-10k band only. |
| PackagesPage.LuxuryPriceBand | project/src/pages/PackagesPage.tsx:53-59 | The catalogue's `₹45,999`, taken as the rupee sign, `45`, a comma and `999`, reads as 45999 and is in the 25k-50k band only. |
| PackagesPage.TitleHitMatches | project/src/pages/PackagesPage.tsx:38-44 | A term found in the title, in any letter case, passes the search. |
| PackagesPage.TitleSubstringMatches | project/src/pages/PackagesPage.tsx:38-44 | Every piece of a title is a search term that finds the package. |
| PackagesPage.TwelveDaysInTwoBuckets | project/src/pages/PackagesPage.tsx:68-70 | `"12D/11N"` is in both the `1-3 Days` and the `8-14 Days` bucket. |
| PackagesPage.IntendedBucketsApart | project/src/pages/PackagesPage.tsx:67-74 | Read by the leading day count, a duration is in at most one of the four offered buckets. |
| PackagesPage.TwelveDaysIntended | project/src/pages/PackagesPage.tsx:68-70 | Read by its leading day count, `"12D/11N"` is in `8-14 Days` and not in `1-3 Days`. |
| PackagesPage.IntendedFifteenPlus | project/src/pages/PackagesPage.tsx:71 | The intended `15+ Days` bucket is exactly the page's. |
| PackagesPage.FifteenPlusDays | project/src/pages/PackagesPage.tsx:71 | `15+ Days` keeps a duration exactly when its leading integer is at least 15. |
| PackagesPage.PackagesPage.constructor | project/src/pages/PackagesPage.tsx:15-22 | The page opens with the destination it was sent, if any, as the search term, and with no filters. |
| PackagesPage.PackagesPage.ClearFilters | project/src/pages/PackagesPage.tsx:103-106 | Clearing resets every filter, the sort to `featured` and the search to empty. |
| PackagesPage.PackagesPage.FilteredPackages | project/src/pages/PackagesPage.tsx:34-101 | The memo body, computed stage by stage, yields the listing. It holds at most fifteen packages, each an input package that passes every active filter. |
| Server.UnreadableFileIsEmpty | backend/server.js:29-36 | A file that reads as `null` answers every route as an empty collection does. The list is empty, every lookup is 404 and every login is 401. A contact or registration is judged against no earlier records, so a complete registration is written. |
| Server.ListedPackagesFound | backend/server.js:43-53 | Every listed package can be fetched by its id. The lookup answers the first listed package with that id: the package itself or one before it. |
| Server.PackageById | backend/server.js:48-53 | A lookup answers the first package with the id and answers 404 exactly when none has it. |
| Server.ContactOutcome | backend/server.js:74-82 | A falsy name, email or message answers 400 and writes nothing. Otherwise exactly one record is appended and the answer is `ok`. |
| Server.RegisterOutcome | backend/server.js:85-95 | Registration answers 400 `Missing fields` or 400 `Email exists` and stores nothing. Otherwise it appends one user and answers it without the password. A write happens exactly when the answer is 200. |
| Server.RegisterKeepsEmailsDistinct | backend/server.js:89-93 | Pairwise distinct stored emails stay distinct after a registration. |
| Server.LoginOutcome | backend/server.js:97-104 | Login succeeds exactly when some user has the email and password. It answers the first such user without a password, otherwise 401. |
| Server.RegisterThenLogin | backend/server.js:85-104 | A user who has just registered logs in with the same email and password and gets the registration's answer. |
| Server.OneAccountPerEmail | backend/server.js:89-101 | A second registration with a stored email is refused, and only the registered password logs in. |
| Server.Backend.GetPackage | backend/server.js:48-53 | The lookup over the stored collection; an unreadable file answers 404. |
| Server.Backend.PostContact | backend/server.js:74-82 | The contacts file becomes the outcome's collection when the outcome writes, and nothing else changes. |
| Server.Backend.Register | backend/server.js:85-95 | The users file follows the registration outcome and keeps emails distinct; nothing else changes. |
| Server.Backend.Login | backend/server.js:97-104 | The login over the stored users; an unreadable file answers 401. |
| TripHistory.FormatDuration | project/src/components/trip/TripHistory.tsx:14-24 | The label is `Ongoing` exactly when there is no end time; otherwise it ends in `m`. |
| TripHistory.FormatDurationForm | project/src/components/trip/TripHistory.tsx:16-23 | An ended trip's label has an `h` exactly when at least sixty whole minutes passed. It is then `{h}h {m}m`, with at least one hour and fewer than sixty minutes, which together make up the elapsed minutes. Otherwise it is `{minutes}m`, with the sign of a negative duration. |
| TripHistory.FormatDurationRoundTrip | project/src/components/trip/TripHistory.tsx:16-23 | The label of an ended trip reads back as its whole elapsed minutes: the label loses only the seconds. |
| TripHistory.ReadHoursAndMinutes | project/src/components/trip/TripHistory.tsx:21 | An hours-and-minutes label reads back as its total minutes. |
| TripHistory.FilteredTripsExactly | project/src/components/trip/TripHistory.tsx:60-73 | A trip is listed exactly when it is logged and passes the category and date filters. |
| TripHistory.FilteredTripsKeepOrder | project/src/components/trip/TripHistory.tsx:60 | Listed trips keep their logged order. |
| TripHistory.UnfilteredShowsAll | project/src/components/trip/TripHistory.tsx:60-73 | `all` with no date limit lists every trip. |
| TripHistory.ModeFilterKeepsMode | project/src/components/trip/TripHistory.tsx:61 | Selecting a mode other than `other` lists only trips of that mode. |
| TripHistory.TotalDistanceConcat | project/src/components/trip/TripHistory.tsx:78 | The total distance of a log is the sum over its parts. |
| TripHistory.TotalDistanceNonNegative | project/src/components/trip/TripHistory.tsx:78 | With no negative leg, the total distance is not negative. |
| TripHistory.DurationSumAppend | project/src/components/trip/TripHistory.tsx:80-82 | An open trip adds 0 to the duration sum; an ended one adds its length. |
| TripHistory.UniformAverage | project/src/components/trip/TripHistory.tsx:79-84 | When every trip lasted `d` milliseconds, the average is `d` in minutes. |
| TripHistory.CountsSumToTotal | project/src/components/trip/TripHistory.tsx:85-88 | The per-mode counts sum to the number of trips. |
| TripHistory.CountedModeOccurs | project/src/components/trip/TripHistory.tsx:85-88 | A mode counted at least once is the mode of some trip. |
| TripHistory.HistogramTotalIsModeTotal | project/src/components/trip/TripHistory.tsx:85-88 | A histogram holding each occurring mode's count sums to the per-mode total. |
| TripHistory.ModeDistribution | project/src/components/trip/TripHistory.tsx:85-88 | The reduce gives a key exactly for each occurring mode, holding its count. Every key is some trip's mode and the counts sum to the number of trips. |
| TripHistory.ComputeStats | project/src/components/trip/TripHistory.tsx:76-89 | `totalTrips` is the number of trips and `totalDistance` their distance. `averageDuration` is 0 without trips. The histogram sums to `totalTrips`. |
| TripHistory.AddedCompanionCounts | project/src/components/trip/TripHistory.tsx:240 | The traveller count is at least one, and adding a companion in the logger raises it by one. |
| TripHistory.RemovedCompanionCounts | project/src/components/trip/TripHistory.tsx:240 | Removing the companion at an index in range lowers the traveller count by one. Any other index leaves it. |
| TripLogger.WithNewCompanion | project/src/components/trip/TripLogger.tsx:115-123 | Adding appends exactly one companion with no age, no gender and an empty relation, leaving the others untouched. |
| TripLogger.EditChangesOneField | project/src/components/trip/TripLogger.tsx:127 | An edit changes only its own field of the companion. |
| TripLogger.UpdateChangesOneEntry | project/src/components/trip/TripLogger.tsx:125-130 | An update changes only entry `index`, keeps the length, and does nothing for an index outside the list. |
| TripLogger.WithoutIndex | project/src/components/trip/TripLogger.tsx:132-134 | Removing drops exactly the entry at `index`; an index outside the list changes nothing. |
| TripLogger.RemoveKeepsOthers | project/src/components/trip/TripLogger.tsx:133 | After a removal the other entries keep their order, one fewer. |
| TripLogger.AgeFromInput | project/src/components/trip/TripLogger.tsx:275 | `parseInt(value) \|\| undefined` never stores an age of 0. |
| TripLogger.AgeInputRoundTrip | project/src/components/trip/TripLogger.tsx:275 | A non-zero age typed in decimal is stored as itself. |
| TripLogger.CanEndIffNotBlank | project/src/components/trip/TripLogger.tsx:310 | Ending is enabled exactly when the destination has a non-whitespace character. |
| TripLogger.TripLoggerForm.StartTrip | project/src/components/trip/TripLogger.tsx:62-70 | Starting sets the form active and records the start time. It overwrites the start location only when a fix is known. |
| TripLogger.TripLoggerForm.EndTrip | project/src/components/trip/TripLogger.tsx:72-103 | Without a start time nothing happens. Otherwise the finished trip is handed on and the form reset. |
| TripLogger.TripLoggerForm.ResetForm | project/src/components/trip/TripLogger.tsx:105-113 | Resetting gives an inactive form with car, work, empty texts, no companions and no start time. |
| TripLogger.TripLoggerForm.AddCompanion | project/src/components/trip/TripLogger.tsx:115-123 | The companion list becomes the list with one new companion. |
| TripLogger.TripLoggerForm.UpdateCompanion | project/src/components/trip/TripLogger.tsx:125-130 | The companion list becomes the updated list. |
| TripLogger.TripLoggerForm.RemoveCompanion | project/src/components/trip/TripLogger.tsx:132-134 | The companion list becomes the list without the entry. |
| TripLogger.TripLoggerForm.EndEnabled | project/src/components/trip/TripLogger.tsx:310 | The end button is enabled exactly when the destination has a non-whitespace character. |
| NatpacPage.NewTrip | project/src/pages/NatpacPage.tsx:41-67 | The owner is the consent's user id when it is non-empty, else `anonymous`. Supplied fields are copied and the end time always is. An empty or missing trip number becomes `TRIP-{now}`, and a missing start or creation time becomes now. Missing locations become blank ones, and missing mode, purpose, companions, legs and status become car, work, `[]`, `[]` and completed. |
| NatpacPage.SaveCompleteTrip | project/src/pages/NatpacPage.tsx:41-67 | Defaults only fill gaps: saving a complete trip gives it back unchanged. |
| NatpacPage.SaveEmptyTrip | project/src/pages/NatpacPage.tsx:41-67 | With nothing supplied, every field takes its default. |
| NatpacPage.SaveFinishedTrip | project/src/pages/NatpacPage.tsx:41-67 | A trip the logger finished keeps everything the logger put in it once it is saved: `TRIP-{end}`, its times, the form's mode, purpose and companions, no legs, completed. Its origin carries the fix's coordinates and is detected automatically exactly when a fix is known, else it sits at 0,0; the destination sits at 0,0. |
| NatpacPage.FinishedTripSavedWhole | project/src/components/trip/TripLogger.tsx:75-99 | The logger fills every field of a finished trip, so saving it supplies no default. |
| NatpacPage.CurrentTrip | project/src/pages/NatpacPage.tsx:215 | The current trip is the first active trip, and there is none exactly when no trip is active. |
| NatpacPage.CurrentTripAfterPrepend | project/src/pages/NatpacPage.tsx:69-215 | Prepending an inactive trip leaves the current trip unchanged; prepending an active one makes it current. |
| NatpacPage.NatpacPageState.constructor | project/src/pages/NatpacPage.tsx:18-32 | A stored consent is adopted and the form stays closed. Without one the form opens. Stored trips are loaded. |
| NatpacPage.NatpacPageState.View | project/src/pages/NatpacPage.tsx:97-222 | The consent gate is shown exactly while there is no consent, so the logger and the history are unreachable without it. |
| NatpacPage.NatpacPageState.HandleConsentSubmit | project/src/pages/NatpacPage.tsx:34-38 | The consent is adopted and stored and the form closes. |
| NatpacPage.NatpacPageState.CloseConsentForm | project/src/pages/NatpacPage.tsx:103-106 | Closing the form hides it and navigates home. |
| NatpacPage.NatpacPageState.HandleSaveTrip | project/src/pages/NatpacPage.tsx:40-75 | The new trip becomes the head of the list, the earlier trips follow in order, and the list is stored. |
| ConsentForm.SubmitGate | project/src/components/consent/ConsentForm.tsx:19-37 | A consent is handed on and the form closed exactly when all four agreements are given, consent first. The consent records consent with both copied agreements true; otherwise only an alert is raised. |
| ConsentForm.SubmittedConsentAgrees | project/src/components/consent/ConsentForm.tsx:27-33 | Every consent handed on gives consent, carries the user and date, and has both agreements true. |
| ConsentForm.OnlyAlertIffNotAgreed | project/src/components/consent/ConsentForm.tsx:19-37 | Some agreement is missing exactly when every submission, by any user at any time, only raises the alert. |
| ConsentForm.ConsentFormState.SubmitDisabled | project/src/components/consent/ConsentForm.tsx:39-189 | The submit button is disabled exactly when every submission of the current agreements, by any user at any time, only raises the alert. |
| ConsentForm.ConsentFormState.Submit | project/src/components/consent/ConsentForm.tsx:19-37 | Submitting makes the calls the gate describes. It hands on a consent exactly when the button is enabled. |
| TravelAgents.ChangedKeepsHiddenFields | project/src/components/Travelagents/TravelAgents.tsx:20-127 | Typing never fills the id, description or category, which have no input. |
| TravelAgents.CityListShape | project/src/components/Travelagents/TravelAgents.tsx:32 | There is one city more than there are commas. No city holds a comma or starts or ends with whitespace. |
| TravelAgents.NewPackageIgnoresFormId | project/src/components/Travelagents/TravelAgents.tsx:28-30 | The id is `pkg-{now}`. The package does not depend on the form's `id`. |
| TravelAgents.NewPackageIdsByTime | project/src/components/Travelagents/TravelAgents.tsx:28-30 | Two submitted packages have the same id exactly when they were submitted at the same millisecond, whatever the forms held. |
| TravelAgents.NewPackageRatingIsText | project/src/components/Travelagents/TravelAgents.tsx:28-33 | The rating stays the typed text, so the packages page reads it with `Number(...)`. |
| TravelAgents.PriceRoundTrip | project/src/components/Travelagents/TravelAgents.tsx:31 | A digit-only price is read back by the packages page's price parse as the number it spells. |
| TravelAgents.AddedPackageNeverInCategory | project/src/components/Travelagents/TravelAgents.tsx:4-127 | A package added through the form is never listed while a category filter is on. |
| TravelAgents.SubmittedPackageListed | project/src/components/Travelagents/TravelAgents.tsx:35 | With no filter and fewer than fifteen packages before it, a submitted package is listed. |
| TravelAgents.TravelAgentsPage.ChangeInput | project/src/components/Travelagents/TravelAgents.tsx:20-23 | A change replaces the one field and keeps the id, description and category empty. |
| TravelAgents.TravelAgentsPage.HandleSubmit | project/src/components/Travelagents/TravelAgents.tsx:25-50 | Submit appends exactly one package built from the form after the unchanged earlier ones, stores the list and clears the form. The new package has the id `pkg-{now}`, the typed rating text, and an empty category and description. |

## Left out

- I/O and runtime effects are not modelled: `fs`, Express, CORS, JSON (de)serialisation, `localStorage`, geolocation, `crypto.randomUUID` and the clock. Ids, times, stored values and fixes are parameters. A file that fails to parse is `None`. A parsed value keeps the recorded fields, and times are integers of milliseconds.
- TripHistory.ComputeStats: its `averageDuration` holds only for trips logged since the page loaded. The trips restored by `JSON.parse` at project/src/pages/NatpacPage.tsx:30 keep `startTime` and `endTime` as strings. `averageDuration` (project/src/components/trip/TripHistory.tsx:81) calls `getTime()` on them, which throws whenever a shown restored trip has an end time. The model's times are numbers, so it has no such failure. `formatDuration` is safe: its caller converts both times with `new Date(...)` (project/src/components/trip/TripHistory.tsx:247).
- TripLogger.FinishedTrip: `Date.now()` for the trip number (project/src/components/trip/TripLogger.tsx:76), and `new Date()` for the end time (line 78) and the creation time (line 97), are one instant `now`. The source reads the clock three times, so they can differ by a millisecond. The start time read at line 64 is a parameter.
- NatpacPage.NewTrip: `Date.now()` and `new Date()` are one instant `now`. The source reads the clock separately, so they can differ by a millisecond.
- Floating point is not modelled: ratings, distances and the average duration are exact reals, and the `toFixed(1)` km display is left out.
- `toLowerCase` is modelled on ASCII letters only. No other letter changes case.
- `Number(...)` and `parseFloat` read decimal literals only: no exponent, no `Infinity`, no hexadecimal for `Number`.
- Sorting.SortIsSorted: key order is proved only for inputs where every key is a number. A NaN comparison makes the comparator inconsistent, and the standard then leaves the order implementation-defined. The model fixes one stable choice and proves only that it is a permutation.
- PackagesPage.PriceLowAscending: stated only for packages whose prices all parse. `On Request` has no numeric key.
- PackagesPage.PriceHighDescending: stated only for packages whose prices all parse, as above.
- PackagesPage.RatingDescending: stated only for numeric ratings. An agent's rating text that does not parse has no key.
- PackagesPage.ReviewsDescending: stated only for packages with a review count. Agent-added packages have none.
- TravelAgents.SubmittedPackageListed: stated only while fewer than fifteen packages precede the new one. Above that, whether it is listed depends on the featured order and the cut at fifteen.
- Request body fields are strings or absent. Other JSON values in a body are not modelled.
- The other GET routes (testimonials, agents, destinations, hotels) and `seed.js` are left out. They only echo or write fixture files.
- Concurrency is not modelled: the model is sequential, so two simultaneous registrations cannot race.
- The NATPAC export (`Blob`, download link) is left out. It is I/O.
- Rendering is left out: JSX, icons, the tab styling and the inquiry flows, plus the voice search, 3-D globe and timer animations in other components.
- NatpacPage.NatpacPageState.constructor models the state after the mount effect has run. The first render before it is not modelled.
- TripHistory.WithinRange compares exact day fractions. The source divides in floating point.

/** The package listing: the catalogue packages followed by the packages
    agents added in the browser, narrowed by a search term and four filters,
    ordered by one of five rules and cut to the first fifteen. */
module PackagesPage {
  import opened JsText
  import opened Types
  import opened Seqs
  import opened Sorting

  const Rupee: char := '\U{20B9}'
  const OnRequest: string := "On Request"
  /** At most this many packages are shown. */
  const DisplayCap: nat := 15

  /** The characters the price parse deletes first. */
  const PriceMarks: set<char> := {Rupee, ','}

  /** The page's `filters` state: each option is its `<select>` value, and
      the empty string means "no filter". */
  datatype Filters = Filters(category: string, priceRange: string, duration: string, rating: string, sortBy: string)

  /** The filter state the page starts with and that "clear" restores. */
  const DefaultFilters: Filters := Filters("", "", "", "", "featured")

  // ---------------------------------------------------------------------
  // The five filters
  // ---------------------------------------------------------------------

  /** The search: the lower-cased term occurs in the lower-cased title, in
      some lower-cased city, or in the lower-cased description. */
  predicate MatchesSearch(p: TourPackage, term: string) {
    var t := Lower(term);
    Contains(Lower(p.title), t)
    || (exists i :: 0 <= i < |p.cities| && Contains(Lower(p.cities[i]), t))
    || Contains(Lower(p.description), t)
  }

  /** The price as a number: `parseInt` after deleting every `₹` and `,`. */
  function PriceValue(price: string): Option<int> {
    ParseInt(DeleteChars(price, PriceMarks))
  }

  /** The price filter. `On Request` passes every band; otherwise the
      parsed price must lie in the band, which NaN never does; an unknown
      band lets everything through. */
  predicate InPriceBand(price: string, band: string) {
    if price == OnRequest then true
    else
      var v := PriceValue(price);
      if band == "under-10k" then v.Some? && v.value < 10000
      else if band == "10k-25k" then v.Some? && 10000 <= v.value <= 25000
      else if band == "25k-50k" then v.Some? && 25000 <= v.value <= 50000
      else if band == "above-50k" then v.Some? && v.value > 50000
      else true
  }

  /** Some of the alternatives occurs in `s`: the test of a regular
      expression `/(a|b|...)/` whose alternatives are plain text. */
  predicate ContainsAny(s: string, alternatives: seq<string>) {
    exists i :: 0 <= i < |alternatives| && Contains(s, alternatives[i])
  }

  const ShortTrip: seq<string> := ["1D", "2D", "3D"]
  const MediumTrip: seq<string> := ["4D", "5D", "6D", "7D"]
  const LongTrip: seq<string> := ["8D", "9D", "10D", "11D", "12D", "13D", "14D"]

  /** The duration filter: the first three buckets look for a day count
      anywhere in the text; `15+ Days` parses the leading integer. */
  predicate InDurationBucket(duration: string, bucket: string) {
    if bucket == "1-3 Days" then ContainsAny(duration, ShortTrip)
    else if bucket == "4-7 Days" then ContainsAny(duration, MediumTrip)
    else if bucket == "8-14 Days" then ContainsAny(duration, LongTrip)
    else if bucket == "15+ Days" then
      var n := ParseInt(duration);
      n.Some? && n.value >= 15
    else true
  }

  /** A rating as a number: JavaScript converts a typed rating with
      `Number(...)` when it is compared or subtracted. */
  function RatingValue(r: Rating): Option<real> {
    match r
    case Score(v) => Some(v)
    case Typed(t) => ToNumber(t)
  }

  /** The rating filter: `rating >= parseFloat(threshold)`, false when
      either side is NaN. */
  predicate MeetsRating(p: TourPackage, threshold: string) {
    var min := ParseFloat(threshold);
    var v := RatingValue(p.rating);
    min.Some? && v.Some? && v.value >= min.value
  }

  /** A package passes every filter that is switched on. */
  predicate PassesFilters(p: TourPackage, term: string, f: Filters) {
    PassesFirst(p, 5, term, f)
  }

  /** A package passes the first `n` filter stages, in the page's order:
      search, category, price, duration, rating. */
  predicate PassesFirst(p: TourPackage, n: nat, term: string, f: Filters) {
    && (n >= 1 ==> term == "" || MatchesSearch(p, term))
    && (n >= 2 ==> f.category == "" || p.category == f.category)
    && (n >= 3 ==> f.priceRange == "" || InPriceBand(p.price, f.priceRange))
    && (n >= 4 ==> f.duration == "" || InDurationBucket(p.duration, f.duration))
    && (n >= 5 ==> f.rating == "" || MeetsRating(p, f.rating))
  }

  /** The verdict of each stage, as the callback handed to `filter`. */
  function SearchHit(term: string): TourPackage -> bool {
    (p: TourPackage) => MatchesSearch(p, term)
  }

  function InCategory(category: string): TourPackage -> bool {
    (p: TourPackage) => p.category == category
  }

  function InBand(band: string): TourPackage -> bool {
    (p: TourPackage) => InPriceBand(p.price, band)
  }

  function InBucket(bucket: string): TourPackage -> bool {
    (p: TourPackage) => InDurationBucket(p.duration, bucket)
  }

  function RatedAtLeast(threshold: string): TourPackage -> bool {
    (p: TourPackage) => MeetsRating(p, threshold)
  }

  function UpToStage(n: nat, term: string, f: Filters): TourPackage -> bool {
    (p: TourPackage) => PassesFirst(p, n, term, f)
  }

  /** The five filters, applied one after another as the page does; a
      stage whose option is empty is skipped. */
  function ApplyFilters(all: seq<TourPackage>, term: string, f: Filters): seq<TourPackage> {
    var bySearch := FilterIf(term != "", all, SearchHit(term));
    var byCategory := FilterIf(f.category != "", bySearch, InCategory(f.category));
    var byPrice := FilterIf(f.priceRange != "", byCategory, InBand(f.priceRange));
    var byDuration := FilterIf(f.duration != "", byPrice, InBucket(f.duration));
    FilterIf(f.rating != "", byDuration, RatedAtLeast(f.rating))
  }

  /** The packages passing every active filter, in input order. */
  function Matching(all: seq<TourPackage>, term: string, f: Filters): seq<TourPackage> {
    Filter(all, UpToStage(5, term, f))
  }

  lemma FirstStage(all: seq<TourPackage>, term: string, f: Filters)
    ensures FilterIf(term != "", all, SearchHit(term)) == Filter(all, UpToStage(1, term, f))
  {
    FilterKeepsAll(all, UpToStage(0, term, f));
    FilterIfAfterFilter(all, UpToStage(0, term, f), term != "", SearchHit(term), UpToStage(1, term, f));
  }

  lemma CategoryStage(all: seq<TourPackage>, term: string, f: Filters)
    ensures FilterIf(f.category != "", Filter(all, UpToStage(1, term, f)), InCategory(f.category))
         == Filter(all, UpToStage(2, term, f))
  {
    FilterIfAfterFilter(all, UpToStage(1, term, f), f.category != "", InCategory(f.category), UpToStage(2, term, f));
  }

  lemma PriceStage(all: seq<TourPackage>, term: string, f: Filters)
    ensures FilterIf(f.priceRange != "", Filter(all, UpToStage(2, term, f)), InBand(f.priceRange))
         == Filter(all, UpToStage(3, term, f))
  {
    FilterIfAfterFilter(all, UpToStage(2, term, f), f.priceRange != "", InBand(f.priceRange), UpToStage(3, term, f));
  }

  lemma DurationStage(all: seq<TourPackage>, term: string, f: Filters)
    ensures FilterIf(f.duration != "", Filter(all, UpToStage(3, term, f)), InBucket(f.duration))
         == Filter(all, UpToStage(4, term, f))
  {
    FilterIfAfterFilter(all, UpToStage(3, term, f), f.duration != "", InBucket(f.duration), UpToStage(4, term, f));
  }

  lemma RatingStage(all: seq<TourPackage>, term: string, f: Filters)
    ensures FilterIf(f.rating != "", Filter(all, UpToStage(4, term, f)), RatedAtLeast(f.rating))
         == Filter(all, UpToStage(5, term, f))
  {
    FilterIfAfterFilter(all, UpToStage(4, term, f), f.rating != "", RatedAtLeast(f.rating), UpToStage(5, term, f));
  }

  /** The filters in a row are one filter on their conjunction: the
      packages kept are exactly those that pass every active filter, in
      their original order. */
  lemma ApplyFiltersIsOneFilter(all: seq<TourPackage>, term: string, f: Filters)
    ensures ApplyFilters(all, term, f) == Matching(all, term, f)
  {
    FirstStage(all, term, f);
    CategoryStage(all, term, f);
    PriceStage(all, term, f);
    DurationStage(all, term, f);
    RatingStage(all, term, f);
  }

  // ---------------------------------------------------------------------
  // Sorting
  // ---------------------------------------------------------------------

  /** The comparators of the page's `switch`; any other `sortBy` value
      falls through to `featured`. */
  datatype SortRule = PriceLow | PriceHigh | ByRating | ByReviews | ByFeatured

  function RuleOf(sortBy: string): SortRule {
    if sortBy == "price-low" then PriceLow
    else if sortBy == "price-high" then PriceHigh
    else if sortBy == "rating" then ByRating
    else if sortBy == "reviews" then ByReviews
    else ByFeatured
  }

  /** The sort key of a rule: each comparator of the page is
      `key(a) - key(b)`, NaN when a key is missing. Prices and the
      descending rules negate the field; `featured` ranks featured packages
      at -1 and the rest at 0. */
  function SortKey(rule: SortRule, p: TourPackage): Option<real> {
    match rule
    case PriceLow =>
      (match PriceValue(p.price)
       case None => None
       case Some(v) => Some(v as real))
    case PriceHigh =>
      (match PriceValue(p.price)
       case None => None
       case Some(v) => Some(-(v as real)))
    case ByRating =>
      (match RatingValue(p.rating)
       case None => None
       case Some(v) => Some(-v))
    case ByReviews =>
      (match p.reviews
       case None => None
       case Some(v) => Some(-(v as real)))
    case ByFeatured => Some(if p.featured then -1.0 else 0.0)
  }

  function KeyOf(rule: SortRule): TourPackage -> Option<real> {
    (p: TourPackage) => SortKey(rule, p)
  }

  /** `filtered.sort(comparator)` for the `sortBy` value. */
  function SortPackages(sortBy: string, s: seq<TourPackage>): seq<TourPackage> {
    Sort(KeyOf(RuleOf(sortBy)), s)
  }

  /** Every listed element of `r` is a package of `s` and the reverse. */
  lemma SortPackagesKeeps(rule: string, s: seq<TourPackage>)
    ensures multiset(SortPackages(rule, s)) == multiset(s)
    ensures forall i :: 0 <= i < |SortPackages(rule, s)| ==> SortPackages(rule, s)[i] in s
  {
    SortKeepsElements(KeyOf(RuleOf(rule)), s);
  }

  /** Over prices that all parse, `price-low` orders cheapest first. */
  lemma PriceLowAscending(s: seq<TourPackage>)
    requires forall i :: 0 <= i < |s| ==> PriceValue(s[i].price).Some?
    ensures var r := SortPackages("price-low", s);
      forall i, j :: 0 <= i < j < |r| ==>
        (PriceValue(r[i].price).Some? && PriceValue(r[j].price).Some?
         && PriceValue(r[i].price).value <= PriceValue(r[j].price).value)
  {
    assert RuleOf("price-low") == PriceLow;
    var key := KeyOf(PriceLow);
    AllPricesKeyed(s);
    SortIsSorted(key, s);
    SortKeepsProperty(key, s, PriceParses);
    var r := Sort(key, s);
    forall i, j | 0 <= i < j < |r|
      ensures PriceValue(r[i].price).Some? && PriceValue(r[j].price).Some?
      ensures PriceValue(r[i].price).value <= PriceValue(r[j].price).value
    {
      assert PriceParses(r[i]) && PriceParses(r[j]);
      PriceLowPair(r[i], r[j]);
    }
  }

  /** Two parseable prices in `price-low` order. */
  lemma PriceLowPair(a: TourPackage, b: TourPackage)
    requires PriceValue(a.price).Some? && PriceValue(b.price).Some?
    requires !Greater(KeyOf(PriceLow), a, b)
    ensures PriceValue(a.price).value <= PriceValue(b.price).value
  {
    PriceKeys(a);
    PriceKeys(b);
  }

  predicate PriceParses(p: TourPackage) {
    PriceValue(p.price).Some?
  }

  /** Parseable prices leave no NaN in either price sort. */
  lemma AllPricesKeyed(s: seq<TourPackage>)
    requires forall i :: 0 <= i < |s| ==> PriceValue(s[i].price).Some?
    ensures AllKeyed(KeyOf(PriceLow), s) && AllKeyed(KeyOf(PriceHigh), s)
  {
    forall i | 0 <= i < |s| ensures KeyOf(PriceLow)(s[i]).Some? && KeyOf(PriceHigh)(s[i]).Some? {
      PriceKeys(s[i]);
    }
  }

  /** The two price keys of a parseable price. */
  lemma PriceKeys(p: TourPackage)
    requires PriceValue(p.price).Some?
    ensures KeyOf(PriceLow)(p) == Some(PriceValue(p.price).value as real)
    ensures KeyOf(PriceHigh)(p) == Some(-(PriceValue(p.price).value as real))
  {
  }

  /** Over prices that all parse, `price-high` orders dearest first. */
  lemma PriceHighDescending(s: seq<TourPackage>)
    requires forall i :: 0 <= i < |s| ==> PriceValue(s[i].price).Some?
    ensures var r := SortPackages("price-high", s);
      forall i, j :: 0 <= i < j < |r| ==>
        (PriceValue(r[i].price).Some? && PriceValue(r[j].price).Some?
         && PriceValue(r[i].price).value >= PriceValue(r[j].price).value)
  {
    assert RuleOf("price-high") == PriceHigh;
    var key := KeyOf(PriceHigh);
    AllPricesKeyed(s);
    SortIsSorted(key, s);
    SortKeepsProperty(key, s, PriceParses);
    var r := Sort(key, s);
    forall i, j | 0 <= i < j < |r|
      ensures PriceValue(r[i].price).Some? && PriceValue(r[j].price).Some?
      ensures PriceValue(r[i].price).value >= PriceValue(r[j].price).value
    {
      assert PriceParses(r[i]) && PriceParses(r[j]);
      PriceHighPair(r[i], r[j]);
    }
  }

  /** Two parseable prices in `price-high` order. */
  lemma PriceHighPair(a: TourPackage, b: TourPackage)
    requires PriceValue(a.price).Some? && PriceValue(b.price).Some?
    requires !Greater(KeyOf(PriceHigh), a, b)
    ensures PriceValue(a.price).value >= PriceValue(b.price).value
  {
    PriceKeys(a);
    PriceKeys(b);
  }

  /** Over ratings that are all numbers, `rating` orders best first. */
  lemma RatingDescending(s: seq<TourPackage>)
    requires forall i :: 0 <= i < |s| ==> RatingValue(s[i].rating).Some?
    ensures var r := SortPackages("rating", s);
      forall i, j :: 0 <= i < j < |r| ==>
        (RatingValue(r[i].rating).Some? && RatingValue(r[j].rating).Some?
         && RatingValue(r[i].rating).value >= RatingValue(r[j].rating).value)
  {
    assert RuleOf("rating") == ByRating;
    var key := KeyOf(ByRating);
    assert AllKeyed(key, s) by {
      forall i | 0 <= i < |s| ensures key(s[i]).Some? {
        RatingKey(s[i]);
      }
    }
    SortIsSorted(key, s);
    SortKeepsProperty(key, s, RatingParses);
    var r := Sort(key, s);
    forall i, j | 0 <= i < j < |r|
      ensures RatingValue(r[i].rating).Some? && RatingValue(r[j].rating).Some?
      ensures RatingValue(r[i].rating).value >= RatingValue(r[j].rating).value
    {
      assert RatingParses(r[i]) && RatingParses(r[j]);
      RatingKey(r[i]);
      RatingKey(r[j]);
    }
  }

  predicate RatingParses(p: TourPackage) {
    RatingValue(p.rating).Some?
  }

  /** The `rating` key of a numeric rating. */
  lemma RatingKey(p: TourPackage)
    requires RatingValue(p.rating).Some?
    ensures KeyOf(ByRating)(p) == Some(-RatingValue(p.rating).value)
  {
  }

  /** A typed rating that `Number(...)` reads as `v` filters and ranks
      exactly like the score `v`. */
  lemma TypedRatesAsItsNumber(p: TourPackage, t: string, threshold: string)
    requires ToNumber(t).Some?
    ensures var v := ToNumber(t).value;
      && MeetsRating(p.(rating := Typed(t)), threshold) == MeetsRating(p.(rating := Score(v)), threshold)
      && KeyOf(ByRating)(p.(rating := Typed(t))) == KeyOf(ByRating)(p.(rating := Score(v)))
  {
    var v := ToNumber(t).value;
    SameValueFiltersSame(p, Typed(t), Score(v), threshold);
    ByRatingKey(p.(rating := Typed(t)));
    ByRatingKey(p.(rating := Score(v)));
  }

  /** Two ratings with the same numeric value pass the rating filter
      alike. */
  lemma SameValueFiltersSame(p: TourPackage, a: Rating, b: Rating, threshold: string)
    requires RatingValue(a) == RatingValue(b)
    ensures MeetsRating(p.(rating := a), threshold) == MeetsRating(p.(rating := b), threshold)
  {
    assert p.(rating := a).rating == a && p.(rating := b).rating == b;
  }

  /** A missing number stays missing; a number is negated. */
  function Negated(v: Option<real>): Option<real> {
    if v.Some? then Some(-v.value) else None
  }

  /** The `rating` key is the negated rating. */
  lemma ByRatingKey(p: TourPackage)
    ensures KeyOf(ByRating)(p) == Negated(RatingValue(p.rating))
  {
  }

  /** A blank typed rating counts as 0 in the filter and the sort. */
  lemma BlankRatingIsZero(p: TourPackage, t: string, threshold: string)
    requires forall k :: 0 <= k < |t| ==> IsSpace(t[k])
    ensures RatingValue(Typed(t)) == Some(0.0)
    ensures MeetsRating(p.(rating := Typed(t)), threshold) == MeetsRating(p.(rating := Score(0.0)), threshold)
    ensures KeyOf(ByRating)(p.(rating := Typed(t))) == KeyOf(ByRating)(p.(rating := Score(0.0)))
  {
    ToNumberOfBlank(t);
    TypedRatesAsItsNumber(p, t, threshold);
  }

  /** An agent's rating typed as `4.5` passes the `4.5` threshold and
      ranks as 4.5. */
  lemma TypedFourPointFive(p: TourPackage)
    ensures RatingValue(Typed("4.5")) == Some(4.5)
    ensures MeetsRating(p.(rating := Typed("4.5")), "4.5")
    ensures KeyOf(ByRating)(p.(rating := Typed("4.5"))) == Some(-4.5)
  {
    TypedFourPointFiveReads();
    TypedRatesAsItsNumber(p, "4.5", "4.5");
    ByRatingKey(p.(rating := Typed("4.5")));
    RatingChoicesParse();
  }

  /** Over packages that all have review counts, `reviews` orders the most
      reviewed first. */
  lemma ReviewsDescending(s: seq<TourPackage>)
    requires forall i :: 0 <= i < |s| ==> s[i].reviews.Some?
    ensures var r := SortPackages("reviews", s);
      forall i, j :: 0 <= i < j < |r| ==>
        (r[i].reviews.Some? && r[j].reviews.Some? && r[i].reviews.value >= r[j].reviews.value)
  {
    assert RuleOf("reviews") == ByReviews;
    var key := KeyOf(ByReviews);
    assert AllKeyed(key, s) by {
      forall i | 0 <= i < |s| ensures key(s[i]).Some? {
        ReviewsKey(s[i]);
      }
    }
    SortIsSorted(key, s);
    SortKeepsProperty(key, s, HasReviews);
    var r := Sort(key, s);
    forall i, j | 0 <= i < j < |r|
      ensures r[i].reviews.Some? && r[j].reviews.Some?
      ensures r[i].reviews.value >= r[j].reviews.value
    {
      assert HasReviews(r[i]) && HasReviews(r[j]);
      ReviewsKey(r[i]);
      ReviewsKey(r[j]);
    }
  }

  predicate HasReviews(p: TourPackage) {
    p.reviews.Some?
  }

  /** The `reviews` key of a package with a review count. */
  lemma ReviewsKey(p: TourPackage)
    requires p.reviews.Some?
    ensures KeyOf(ByReviews)(p) == Some(-(p.reviews.value as real))
  {
  }


  predicate IsFeatured(p: TourPackage) {
    p.featured
  }

  predicate IsNotFeatured(p: TourPackage) {
    !p.featured
  }

  /** The `featured` sort puts every featured package first and keeps the
      input order within each group, as a stable sort must. */
  lemma FeaturedSortSplits(rule: string, s: seq<TourPackage>)
    requires RuleOf(rule) == ByFeatured
    ensures SortPackages(rule, s) == Filter(s, IsFeatured) + Filter(s, IsNotFeatured)
  {
    forall p: TourPackage
      ensures KeyOf(ByFeatured)(p) == Some(if IsFeatured(p) then -1.0 else 0.0) && IsNotFeatured(p) == !IsFeatured(p)
    {
    }
    SortTwoGroups(KeyOf(ByFeatured), s, IsFeatured, IsNotFeatured);
  }

  // ---------------------------------------------------------------------
  // The listing
  // ---------------------------------------------------------------------

  /** What the page lists: the catalogue followed by the added packages,
      filtered, sorted by the rule, and cut to the display cap. */
  function Query(catalogue: seq<TourPackage>, added: seq<TourPackage>, term: string, f: Filters): seq<TourPackage> {
    Take(SortPackages(f.sortBy, ApplyFilters(catalogue + added, term, f)), DisplayCap)
  }

  /** The sorted matches are exactly the input packages that pass. */
  lemma SortedMatches(all: seq<TourPackage>, rule: string, term: string, f: Filters)
    ensures var r := SortPackages(rule, Matching(all, term, f));
      && |r| == |Matching(all, term, f)|
      && (forall i :: 0 <= i < |r| ==> r[i] in all && PassesFilters(r[i], term, f))
      && (forall i :: 0 <= i < |all| && PassesFilters(all[i], term, f) ==> all[i] in r)
  {
    var m := Matching(all, term, f);
    var r := SortPackages(rule, m);
    forall i | 0 <= i < |r| ensures r[i] in all && PassesFilters(r[i], term, f) {
      SortSameMembers(KeyOf(RuleOf(rule)), m, r[i]);
      FilterMember(all, UpToStage(5, term, f), r[i]);
      assert UpToStage(5, term, f)(r[i]);
    }
    forall i | 0 <= i < |all| && PassesFilters(all[i], term, f) ensures all[i] in r {
      assert UpToStage(5, term, f)(all[i]);
      FilterMember(all, UpToStage(5, term, f), all[i]);
      SortSameMembers(KeyOf(RuleOf(rule)), m, all[i]);
    }
  }

  /** At most fifteen packages are listed: as many as pass, up to fifteen.
      Every listed package is one of the input packages, unaltered, and
      passes every active filter. */
  lemma QuerySound(catalogue: seq<TourPackage>, added: seq<TourPackage>, term: string, f: Filters)
    ensures var r := Query(catalogue, added, term, f);
      var m := Matching(catalogue + added, term, f);
      && |r| == (if |m| < DisplayCap then |m| else DisplayCap)
      && forall i :: 0 <= i < |r| ==> r[i] in catalogue + added && PassesFilters(r[i], term, f)
  {
    var all := catalogue + added;
    ApplyFiltersIsOneFilter(all, term, f);
    SortedMatches(all, f.sortBy, term, f);
    var sorted := SortPackages(f.sortBy, Matching(all, term, f));
    var r := Query(catalogue, added, term, f);
    assert r == Take(sorted, DisplayCap);
    forall i | 0 <= i < |r| ensures r[i] in all && PassesFilters(r[i], term, f) {
      assert r[i] == sorted[i];
    }
  }

  /** When no more than fifteen packages pass, the listing is all of them
      in sorted order. */
  lemma QueryUnderCapIsSorted(catalogue: seq<TourPackage>, added: seq<TourPackage>, term: string, f: Filters)
    requires |Matching(catalogue + added, term, f)| <= DisplayCap
    ensures Query(catalogue, added, term, f) == SortPackages(f.sortBy, Matching(catalogue + added, term, f))
  {
    ApplyFiltersIsOneFilter(catalogue + added, term, f);
    SortPackagesKeeps(f.sortBy, Matching(catalogue + added, term, f));
  }

  /** When no more than fifteen packages pass, the listing is a
      rearrangement of the passing packages, each as often as it passes. */
  lemma QueryPermutesMatchesUnderCap(catalogue: seq<TourPackage>, added: seq<TourPackage>, term: string, f: Filters)
    requires |Matching(catalogue + added, term, f)| <= DisplayCap
    ensures multiset(Query(catalogue, added, term, f)) == multiset(Matching(catalogue + added, term, f))
  {
    QueryUnderCapIsSorted(catalogue, added, term, f);
    SortPackagesKeeps(f.sortBy, Matching(catalogue + added, term, f));
  }

  /** When no more than fifteen packages pass, nothing is cut: a package
      is listed exactly when it is an input package that passes every
      active filter. */
  lemma QueryCompleteUnderCap(catalogue: seq<TourPackage>, added: seq<TourPackage>, term: string, f: Filters)
    requires |Matching(catalogue + added, term, f)| <= DisplayCap
    ensures forall p ::
      (p in Query(catalogue, added, term, f) <==> p in catalogue + added && PassesFilters(p, term, f))
  {
    var all := catalogue + added;
    QueryUnderCapIsSorted(catalogue, added, term, f);
    var sorted := SortPackages(f.sortBy, Matching(all, term, f));
    SortedMatches(all, f.sortBy, term, f);
    MembersExactly(sorted, all, UpToStage(5, term, f));
  }

  /** With no search and every filter off, every package passes. */
  lemma NoFiltersKeepAll(all: seq<TourPackage>, f: Filters)
    requires f.category == "" && f.priceRange == "" && f.duration == "" && f.rating == ""
    ensures Matching(all, "", f) == all
  {
    FilterKeepsAll(all, UpToStage(5, "", f));
  }

  /** With the cleared filters only the `featured` ordering and the cap
      apply: featured packages first, each group in input order. */
  lemma ClearedQuery(catalogue: seq<TourPackage>, added: seq<TourPackage>)
    ensures Query(catalogue, added, "", DefaultFilters)
         == Take(Filter(catalogue + added, IsFeatured) + Filter(catalogue + added, IsNotFeatured), DisplayCap)
  {
    FeaturedSortSplits("featured", catalogue + added);
  }

  // ---------------------------------------------------------------------
  // Facts about single filters
  // ---------------------------------------------------------------------

  /** `On Request` passes every price band; any other price without leading
      digits passes none of the four bands; 25000 is in both middle bands. */
  lemma PriceBandFacts(price: string, band: string)
    ensures InPriceBand(OnRequest, band)
    ensures (price != OnRequest && PriceValue(price).None?
             && band in ["under-10k", "10k-25k", "25k-50k", "above-50k"]) ==> !InPriceBand(price, band)
    ensures PriceValue(price) == Some(25000) ==>
      InPriceBand(price, "10k-25k") && InPriceBand(price, "25k-50k")
  {
  }

  /** Digits hold neither a rupee sign nor a comma. */
  lemma DigitsKeptWhole(d: string)
    requires AllDigits(d)
    ensures DeleteChars(d, PriceMarks) == d
  {
    forall i | 0 <= i < |d| ensures d[i] !in PriceMarks {
      assert IsDigit(d[i]);
    }
  }

  lemma DigitsConcat(a: string, b: string)
    requires AllDigits(a) && AllDigits(b)
    ensures AllDigits(a + b)
  {
    forall i | 0 <= i < |a + b| ensures IsDigit((a + b)[i]) {
      if i < |a| {
        assert (a + b)[i] == a[i];
      } else {
        assert (a + b)[i] == b[i - |a|];
      }
    }
  }

  /** Deleting the marks from the rupee sign, digits, a comma and digits
      leaves the digits. */
  lemma GroupedPriceStripped(a: string, b: string)
    requires AllDigits(a) && AllDigits(b)
    ensures DeleteChars([Rupee] + a + [','] + b, PriceMarks) == a + b
  {
    var signed := [Rupee] + a;
    var grouped := signed + [','];
    DeleteOneChar(Rupee, PriceMarks);
    DeleteOneChar(',', PriceMarks);
    DigitsKeptWhole(a);
    DigitsKeptWhole(b);
    DeleteCharsConcat([Rupee], a, PriceMarks);
    assert DeleteChars(signed, PriceMarks) == a;
    DeleteCharsConcat(signed, [','], PriceMarks);
    assert DeleteChars(grouped, PriceMarks) == a;
    DeleteCharsConcat(grouped, b, PriceMarks);
  }

  /** A rupee price written with one thousands comma reads as its digits. */
  lemma GroupedPriceValue(a: string, b: string)
    requires |a| > 0 && AllDigits(a) && AllDigits(b)
    ensures PriceValue([Rupee] + a + [','] + b) == Some(ValueIn(a + b, 10))
  {
    GroupedPriceStripped(a, b);
    DigitsConcat(a, b);
    ParseIntOfDigits(a + b);
  }

  lemma ValueOf7999()
    ensures ValueIn("7999", 10) == 7999
  {
    assert "7999"[..3] == "799" && "799"[..2] == "79" && "79"[..1] == "7" && "7"[..0] == "";
  }

  lemma ValueOf45999()
    ensures ValueIn("45999", 10) == 45999
  {
    assert "45999"[..4] == "4599" && "4599"[..3] == "459" && "459"[..2] == "45";
    assert "45"[..1] == "4" && "4"[..0] == "";
  }

  /** For a parsed price other than `On Request`, each band holds exactly
      the values between its bounds. */
  lemma PriceBands(price: string, v: int)
    requires price != OnRequest && PriceValue(price) == Some(v)
    ensures InPriceBand(price, "under-10k") <==> v < 10000
    ensures InPriceBand(price, "10k-25k") <==> 10000 <= v <= 25000
    ensures InPriceBand(price, "25k-50k") <==> 25000 <= v <= 50000
    ensures InPriceBand(price, "above-50k") <==> v > 50000
  {
  }

  /** The catalogue price `₹7,999` is under 10k and in no other band. */
  lemma BudgetPriceBand(a: string, b: string)
    requires a == "7" && b == "999"
    ensures PriceValue([Rupee] + a + [','] + b) == Some(7999)
    ensures InPriceBand([Rupee] + a + [','] + b, "under-10k") && !InPriceBand([Rupee] + a + [','] + b, "10k-25k")
    ensures !InPriceBand([Rupee] + a + [','] + b, "25k-50k") && !InPriceBand([Rupee] + a + [','] + b, "above-50k")
  {
    assert AllDigits(a) && AllDigits(b);
    GroupedPriceValue(a, b);
    assert ValueIn(a + b, 10) == 7999 by {
      assert a + b == "7999";
      ValueOf7999();
    }
    PriceBands([Rupee] + a + [','] + b, 7999);
  }

  /** The catalogue price `₹45,999` is in the 25k-50k band and in no other. */
  lemma LuxuryPriceBand(a: string, b: string)
    requires a == "45" && b == "999"
    ensures PriceValue([Rupee] + a + [','] + b) == Some(45999)
    ensures InPriceBand([Rupee] + a + [','] + b, "25k-50k") && !InPriceBand([Rupee] + a + [','] + b, "under-10k")
    ensures !InPriceBand([Rupee] + a + [','] + b, "10k-25k") && !InPriceBand([Rupee] + a + [','] + b, "above-50k")
  {
    assert AllDigits(a) && AllDigits(b);
    GroupedPriceValue(a, b);
    assert ValueIn(a + b, 10) == 45999 by {
      assert a + b == "45999";
      ValueOf45999();
    }
    PriceBands([Rupee] + a + [','] + b, 45999);
  }

  /** A search term found (in any letter case) in a package's title lets
      that package through the search. */
  lemma TitleHitMatches(p: TourPackage, before: string, term: string, after: string)
    requires Lower(p.title) == before + Lower(term) + after
    ensures MatchesSearch(p, term)
  {
    ContainsInfix(before, Lower(term), after);
  }

  /** An exact title substring always finds its package. */
  lemma TitleSubstringMatches(p: TourPackage, i: nat, j: nat)
    requires i <= j <= |p.title|
    ensures MatchesSearch(p, p.title[i..j])
  {
    var t := p.title;
    assert t == t[..i] + t[i..j] + t[j..];
    ContainsInfix(t[..i], t[i..j], t[j..]);
    LowerKeepsContains(t, t[i..j]);
  }

  /** The day-count text of a twelve-day package passes both the `1-3 Days`
      bucket (it contains `2D`) and the `8-14 Days` bucket. */
  lemma TwelveDaysInTwoBuckets()
    ensures InDurationBucket("12D/11N", "1-3 Days")
    ensures InDurationBucket("12D/11N", "8-14 Days")
  {
    var d := "12D/11N";
    ContainsInfix("1", "2D", "/11N");
    assert "1" + "2D" + "/11N" == d;
    assert ShortTrip[1] == "2D";
    ContainsInfix("", "12D", "/11N");
    assert "" + "12D" + "/11N" == d;
    assert LongTrip[4] == "12D";
  }

  /** `15+ Days` keeps a duration exactly when its leading integer is at
      least 15. */
  lemma FifteenPlusDays(duration: string)
    ensures InDurationBucket(duration, "15+ Days")
      <==> ParseInt(duration).Some? && ParseInt(duration).value >= 15
  {
  }

  /** The duration buckets the filter offers. */
  const DurationBuckets: seq<string> := ["1-3 Days", "4-7 Days", "8-14 Days", "15+ Days"]

  /** The buckets as their labels read: a package belongs by its leading
      day count, as `15+ Days` already does. */
  predicate InIntendedBucket(duration: string, bucket: string) {
    var n := ParseInt(duration);
    if bucket == "1-3 Days" then n.Some? && 1 <= n.value <= 3
    else if bucket == "4-7 Days" then n.Some? && 4 <= n.value <= 7
    else if bucket == "8-14 Days" then n.Some? && 8 <= n.value <= 14
    else if bucket == "15+ Days" then n.Some? && n.value >= 15
    else true
  }

  /** Read by the leading day count, no duration falls in two of the
      offered buckets. */
  lemma IntendedBucketsApart(duration: string, i: nat, j: nat)
    requires i < |DurationBuckets| && j < |DurationBuckets|
    requires InIntendedBucket(duration, DurationBuckets[i])
    requires InIntendedBucket(duration, DurationBuckets[j])
    ensures i == j
  {
  }

  /** The intended `15+ Days` bucket is the one the page has. */
  lemma IntendedFifteenPlus(duration: string)
    ensures InIntendedBucket(duration, "15+ Days") <==> InDurationBucket(duration, "15+ Days")
  {
  }

  /** Read by its leading day count, a twelve-day package is in
      `8-14 Days` only. */
  lemma TwelveDaysIntended()
    ensures InIntendedBucket("12D/11N", "8-14 Days")
    ensures !InIntendedBucket("12D/11N", "1-3 Days")
  {
    var d := "12D/11N";
    assert !IsSpace(d[0]);
    assert TrimStart(d) == d;
    assert LeadingDigits(d[2..], 10) == 0 by {
      assert d[2..][0] == 'D';
    }
    assert LeadingDigits(d, 10) == 2 by {
      assert d[1..][1..] == d[2..];
    }
    assert ValueIn("12", 10) == 12 by {
      assert "12"[..1] == "1" && "1"[..0] == "";
      assert Digit('1') == 1 && Digit('2') == 2;
    }
    assert d[..2] == "12";
    assert RadixPrefix(d, 10) == Some(12);
    assert ParseUnsigned(d) == Some(12) by {
      assert d[1] == '2';
    }
  }

  // ---------------------------------------------------------------------
  // The page state
  // ---------------------------------------------------------------------

  /** The page component: its search box and its filter settings. */
  class PackagesPage {
    var searchTerm: string
    var filters: Filters

    /** The page opens with the destination it was sent, if any, as the
        search term, and no filters. */
    constructor (destination: Option<string>)
      ensures searchTerm == (if destination.Some? then destination.value else "")
      ensures filters == DefaultFilters
    {
      searchTerm := if destination.Some? then destination.value else "";
      filters := DefaultFilters;
    }

    method SetSearchTerm(term: string)
      modifies this
      ensures searchTerm == term && filters == old(filters)
    {
      searchTerm := term;
    }

    /** A `<select>` change replaces the whole filter object. */
    method SetFilters(f: Filters)
      modifies this
      ensures filters == f && searchTerm == old(searchTerm)
    {
      filters := f;
    }

    /** "Clear all filters": every filter off, `featured` order, no search. */
    method ClearFilters()
      modifies this
      ensures filters == DefaultFilters && searchTerm == ""
    {
      filters := Filters("", "", "", "", "featured");
      searchTerm := "";
    }

    /** The memoised listing, computed stage by stage on a local copy. */
    method FilteredPackages(catalogue: seq<TourPackage>, added: seq<TourPackage>) returns (shown: seq<TourPackage>)
      ensures shown == Query(catalogue, added, searchTerm, filters)
      ensures |shown| <= DisplayCap
      ensures forall i :: 0 <= i < |shown| ==>
        shown[i] in catalogue + added && PassesFilters(shown[i], searchTerm, filters)
    {
      var filtered := catalogue + added;
      var term := searchTerm;
      var f := filters;
      if term != "" {
        filtered := Filter(filtered, SearchHit(term));
      }
      ghost var bySearch := filtered;
      if f.category != "" {
        filtered := Filter(filtered, InCategory(f.category));
      }
      ghost var byCategory := filtered;
      if f.priceRange != "" {
        filtered := Filter(filtered, InBand(f.priceRange));
      }
      ghost var byPrice := filtered;
      if f.duration != "" {
        filtered := Filter(filtered, InBucket(f.duration));
      }
      ghost var byDuration := filtered;
      if f.rating != "" {
        filtered := Filter(filtered, RatedAtLeast(f.rating));
      }
      assert filtered == ApplyFilters(catalogue + added, term, f) by {
        assert bySearch == FilterIf(term != "", catalogue + added, SearchHit(term));
        assert byCategory == FilterIf(f.category != "", bySearch, InCategory(f.category));
        assert byPrice == FilterIf(f.priceRange != "", byCategory, InBand(f.priceRange));
        assert byDuration == FilterIf(f.duration != "", byPrice, InBucket(f.duration));
        assert filtered == FilterIf(f.rating != "", byDuration, RatedAtLeast(f.rating));
      }
      filtered := SortPackages(f.sortBy, filtered);
      shown := Take(filtered, DisplayCap);
      QuerySound(catalogue, added, term, f);
    }
  }
}

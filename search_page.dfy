/** The search results page (src/app/search/page.tsx): it reads the four
    search parameters from the address, fetches the matching listings,
    keeps exactly ten fields of each, and on Apply sorts a copy by price
    and date and filters it by region, comparing regions without regard
    to case. */
module SearchPage {
  import opened Wrappers
  import opened StableSort
  import opened Text
  import opened Catalog

  // ---------------------------------------------------------------------
  // The filter pipeline

  /** The region filter is active for any region other than `''` and
      `'all'`. */
  predicate RegionActive(region: string) {
    region != "" && region != "all"
  }

  /** `course.region.toLowerCase() === selectedRegion.toLowerCase()` */
  function CaselessRegion(region: string): Listing -> bool {
    (c: Listing) => Lower(c.region) == Lower(region)
  }

  /** What `applyFilters` leaves in `filteredCourses`. */
  function SearchFilters(courses: seq<Listing>, priceOrder: Option<string>, dateOrder: Option<string>,
                         region: string, dateKey: string -> int): seq<Listing> {
    var sorted := SortSteps(courses, priceOrder, dateOrder, dateKey);
    if RegionActive(region) then Filter(sorted, CaselessRegion(region)) else sorted
  }

  /** With no region filter the result is a reordering of all the courses;
      with one it holds exactly the courses whose region matches, each as
      often as in the input, and only those. */
  lemma SearchFiltersContents(courses: seq<Listing>, priceOrder: Option<string>, dateOrder: Option<string>,
                              region: string, dateKey: string -> int, x: Listing)
    ensures var r := SearchFilters(courses, priceOrder, dateOrder, region, dateKey);
      (!RegionActive(region) ==> |r| == |courses| && multiset(r) == multiset(courses)) &&
      (RegionActive(region) ==>
        (forall i :: 0 <= i < |r| ==> Lower(r[i].region) == Lower(region)) &&
        multiset(r)[x] == if Lower(x.region) == Lower(region) then multiset(courses)[x] else 0)
  {
    var sorted := SortSteps(courses, priceOrder, dateOrder, dateKey);
    SortStepsPermutes(courses, priceOrder, dateOrder, dateKey);
    if RegionActive(region) {
      FilterCount(sorted, CaselessRegion(region), x);
      var r := Filter(sorted, CaselessRegion(region));
      assert forall i :: 0 <= i < |r| ==> CaselessRegion(region)(r[i]);
    }
  }

  /** The region filter may equally be applied first: the result is the
      matching courses, sorted. */
  lemma SearchFiltersFilterFirst(courses: seq<Listing>, priceOrder: Option<string>, dateOrder: Option<string>,
                                 region: string, dateKey: string -> int)
    requires RegionActive(region)
    ensures SearchFilters(courses, priceOrder, dateOrder, region, dateKey)
         == SortSteps(Filter(courses, CaselessRegion(region)), priceOrder, dateOrder, dateKey)
  {
    FilterSortSteps(courses, priceOrder, dateOrder, dateKey, CaselessRegion(region));
  }

  /** The result is ordered by the date key when a date order is chosen,
      otherwise by the price key when a price order is chosen; among equal
      dates it keeps the price order. */
  lemma SearchFiltersOrder(courses: seq<Listing>, priceOrder: Option<string>, dateOrder: Option<string>,
                           region: string, dateKey: string -> int, k: int)
    ensures var r := SearchFilters(courses, priceOrder, dateOrder, region, dateKey);
      (Chosen(dateOrder) ==> SortedBy(r, DateKey(dateOrder.value, dateKey))) &&
      (!Chosen(dateOrder) && Chosen(priceOrder) ==> SortedBy(r, PriceKey(priceOrder.value))) &&
      (Chosen(dateOrder) && Chosen(priceOrder) ==>
        SortedBy(KeyClass(r, DateKey(dateOrder.value, dateKey), k), PriceKey(priceOrder.value)))
  {
    var sorted := SortSteps(courses, priceOrder, dateOrder, dateKey);
    var p := CaselessRegion(region);
    if Chosen(dateOrder) {
      var kd := DateKey(dateOrder.value, dateKey);
      SortBySorted(PriceStep(courses, priceOrder), kd);
      if RegionActive(region) {
        FilterSorted(sorted, p, kd);
      }
      if Chosen(priceOrder) {
        var kp := PriceKey(priceOrder.value);
        DateTiesKeepPriceOrder(courses, priceOrder, dateOrder, dateKey, k);
        if RegionActive(region) {
          FilterSorted(KeyClass(sorted, kd, k), p, kp);
          FilterCommute(sorted, p, KeyIs(kd, k));
        }
      }
    } else if Chosen(priceOrder) {
      SortBySorted(courses, PriceKey(priceOrder.value));
      if RegionActive(region) {
        FilterSorted(sorted, p, PriceKey(priceOrder.value));
      }
    }
  }

  /** Applying the filters to their own result changes nothing. */
  lemma SearchFiltersIdempotent(courses: seq<Listing>, priceOrder: Option<string>, dateOrder: Option<string>,
                                region: string, dateKey: string -> int)
    ensures var r := SearchFilters(courses, priceOrder, dateOrder, region, dateKey);
      SearchFilters(r, priceOrder, dateOrder, region, dateKey) == r
  {
    var sorted := SortSteps(courses, priceOrder, dateOrder, dateKey);
    SortStepsIdempotent(courses, priceOrder, dateOrder, dateKey);
    if RegionActive(region) {
      var p := CaselessRegion(region);
      FilterSortSteps(sorted, priceOrder, dateOrder, dateKey, p);
      FilterIdempotent(sorted, p);
    }
  }

  // ---------------------------------------------------------------------
  // Reading the query

  /** `searchParams.get(key)` read as truthy: present and non-empty. */
  predicate Given(params: map<string, string>, key: string) {
    key in params && params[key] != ""
  }

  /** The required-parameter check: the query when all four parameters
      are given, otherwise nothing. */
  function ReadQuery(params: map<string, string>): (q: Option<SearchQuery>)
    ensures q.Some? <==>
      Given(params, "brandname") && Given(params, "course_id") &&
      Given(params, "start_date") && Given(params, "region")
    ensures q.Some? ==> q.value.Complete()
    ensures q.Some? ==> forall key :: key in q.value.Params() ==> key in params && params[key] == q.value.Params()[key]
  {
    if Given(params, "brandname") && Given(params, "course_id") &&
       Given(params, "start_date") && Given(params, "region")
    then Some(SearchQuery(params["brandname"], params["course_id"], params["start_date"], params["region"]))
    else None
  }

  /** The query the home page sends is read back unchanged exactly when it
      is complete. */
  lemma ReadQueryRoundTrip(q: SearchQuery)
    ensures ReadQuery(q.Params()) == if q.Complete() then Some(q) else None
  {
  }

  // ---------------------------------------------------------------------
  // The record mapping

  /** One element of the search response: the ten fields the page keeps and
      whatever other fields the response carries. */
  datatype ApiCourse = ApiCourse(
    website: string, brandname: string, coursename: string, duration: string,
    price: int, region: string, startDate: string, brandImage: string,
    url: string, courseId: string, extra: map<string, string>)

  /** The ten-field record built from one response element. */
  function Extract(raw: ApiCourse): (c: Listing)
    ensures c.website == raw.website && c.brandname == raw.brandname
    ensures c.coursename == raw.coursename && c.duration == raw.duration
    ensures c.price == raw.price && c.region == raw.region && c.startDate == raw.startDate
    ensures c.brandImage == raw.brandImage && c.url == raw.url && c.courseId == raw.courseId
  {
    Listing(raw.website, raw.brandname, raw.coursename, raw.duration, raw.price,
            raw.region, raw.startDate, raw.brandImage, raw.url, raw.courseId)
  }

  /** A listing sent with some other fields. */
  function Embed(c: Listing, extra: map<string, string>): ApiCourse {
    ApiCourse(c.website, c.brandname, c.coursename, c.duration, c.price,
              c.region, c.startDate, c.brandImage, c.url, c.courseId, extra)
  }

  /** The mapping drops the other fields and nothing else: it inverts
      `Embed`, and an element is its record plus its other fields. */
  lemma ExtractRoundTrip(c: Listing, raw: ApiCourse, extra: map<string, string>)
    ensures Extract(Embed(c, extra)) == c
    ensures Embed(Extract(raw), raw.extra) == raw
    ensures Extract(raw.(extra := extra)) == Extract(raw)
  {
  }

  /** `rawData.map(...)` */
  function ExtractAll(raw: seq<ApiCourse>): (cs: seq<Listing>)
    ensures |cs| == |raw|
    ensures forall i :: 0 <= i < |raw| ==> cs[i] == Extract(raw[i])
  {
    seq(|raw|, i requires 0 <= i < |raw| => Extract(raw[i]))
  }

  // ---------------------------------------------------------------------
  // The page state

  class ResultsPage {
    var courses: seq<Listing>
    var filteredCourses: seq<Listing>
    var selectedPriceOrder: Option<string>
    var selectedDateOrder: Option<string>
    /** Starts as `'all'`; the page offers no control that changes it. */
    var selectedRegion: string
    /** `new Date(s).getTime()`, as an integer key. */
    const dateKey: string -> int

    constructor (dateKey: string -> int)
      ensures this.dateKey == dateKey
      ensures courses == [] && filteredCourses == []
      ensures selectedPriceOrder == None && selectedDateOrder == None && selectedRegion == "all"
    {
      this.dateKey := dateKey;
      courses, filteredCourses := [], [];
      selectedPriceOrder, selectedDateOrder, selectedRegion := None, None, "all";
    }

    /** The price menu's `onValueChange`. */
    method SetPriceOrder(value: string)
      modifies this`selectedPriceOrder
      ensures selectedPriceOrder == Some(value)
    {
      selectedPriceOrder := Some(value);
    }

    /** The date menu's `onValueChange`. */
    method SetDateOrder(value: string)
      modifies this`selectedDateOrder
      ensures selectedDateOrder == Some(value)
    {
      selectedDateOrder := Some(value);
    }

    /** The search fetch.  With no parameters at all, or with one of the
        four missing or empty, nothing is requested and nothing changes.
        Otherwise the query is requested (`request`); a response sets both
        lists to its ten-field records, unfiltered, and a failure empties
        both. */
    method FetchCourses(params: map<string, string>, outcome: Fetch<seq<ApiCourse>>)
      returns (request: Option<SearchQuery>)
      modifies this`courses, this`filteredCourses
      ensures request == if params == map[] then None else ReadQuery(params)
      ensures request.None? ==> courses == old(courses) && filteredCourses == old(filteredCourses)
      ensures request.Some? && outcome.Fetched? ==>
        courses == ExtractAll(outcome.data) && filteredCourses == courses
      ensures request.Some? && outcome.Failed? ==> courses == [] && filteredCourses == []
    {
      request := None;
      if params != map[] {
        request := ReadQuery(params);
        if request.Some? {
          match outcome {
            case Fetched(rawData) =>
              var extractedData := ExtractAll(rawData);
              courses := extractedData;
              filteredCourses := extractedData;
            case Failed =>
              courses := [];
              filteredCourses := [];
          }
        }
      }
    }

    /** `applyFilters`: a copy of `courses` is sorted in place by each
        chosen order and then filtered by region; `courses` itself is left
        alone. */
    method ApplyFilters()
      modifies this`filteredCourses
      ensures filteredCourses
           == SearchFilters(courses, selectedPriceOrder, selectedDateOrder, selectedRegion, dateKey)
    {
      var source := courses;
      var filtered := new Listing[|source|](i requires 0 <= i < |source| => source[i]);
      assert filtered[..] == source;
      if Chosen(selectedPriceOrder) {
        SortInPlace(filtered, PriceKey(selectedPriceOrder.value));
      }
      assert filtered[..] == PriceStep(source, selectedPriceOrder);
      if Chosen(selectedDateOrder) {
        SortInPlace(filtered, DateKey(selectedDateOrder.value, dateKey));
      }
      var result := filtered[..];
      if RegionActive(selectedRegion) {
        result := Filter(result, CaselessRegion(selectedRegion));
      }
      filteredCourses := result;
    }
  }
}

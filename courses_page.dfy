/** The course-name results page (src/app/searchcourse/CoursesPage.tsx):
    it fetches the listings for the `course_name` parameter, keeps the
    price/date/region pipeline of the search page but compares regions
    exactly, re-runs it whenever a selection changes or Apply is pressed,
    and renders each listing as a card with display defaults. */
module CoursesPage {
  import opened Wrappers
  import opened StableSort
  import opened Text
  import opened Catalog
  import SearchPage

  // ---------------------------------------------------------------------
  // The filter pipeline

  /** `course.region === selectedRegion` */
  function ExactRegion(region: string): Listing -> bool {
    (c: Listing) => c.region == region
  }

  /** What `applyFilters(coursesToFilter)` leaves in `filteredCourses`:
      here only `'all'` switches the region filter off. */
  function CoursesFilters(courses: seq<Listing>, priceOrder: Option<string>, dateOrder: Option<string>,
                          region: string, dateKey: string -> int): seq<Listing> {
    var sorted := SortSteps(courses, priceOrder, dateOrder, dateKey);
    if region != "all" then Filter(sorted, ExactRegion(region)) else sorted
  }

  /** With region `'all'` the result is a reordering of the courses;
      otherwise it holds exactly the courses whose region is the selected
      one, each as often as in the input, in sorted order. */
  lemma CoursesFiltersContents(courses: seq<Listing>, priceOrder: Option<string>, dateOrder: Option<string>,
                               region: string, dateKey: string -> int, x: Listing)
    ensures var r := CoursesFilters(courses, priceOrder, dateOrder, region, dateKey);
      (region == "all" ==> |r| == |courses| && multiset(r) == multiset(courses)) &&
      (region != "all" ==>
        (forall i :: 0 <= i < |r| ==> r[i].region == region) &&
        multiset(r)[x] == (if x.region == region then multiset(courses)[x] else 0) &&
        r == SortSteps(Filter(courses, ExactRegion(region)), priceOrder, dateOrder, dateKey))
  {
    var sorted := SortSteps(courses, priceOrder, dateOrder, dateKey);
    SortStepsPermutes(courses, priceOrder, dateOrder, dateKey);
    if region != "all" {
      var p := ExactRegion(region);
      FilterCount(sorted, p, x);
      FilterSortSteps(courses, priceOrder, dateOrder, dateKey, p);
      var r := Filter(sorted, p);
      assert forall i :: 0 <= i < |r| ==> p(r[i]);
    }
  }

  /** Re-running the pipeline on its own result changes nothing. */
  lemma CoursesFiltersIdempotent(courses: seq<Listing>, priceOrder: Option<string>, dateOrder: Option<string>,
                                 region: string, dateKey: string -> int)
    ensures var r := CoursesFilters(courses, priceOrder, dateOrder, region, dateKey);
      CoursesFilters(r, priceOrder, dateOrder, region, dateKey) == r
  {
    var sorted := SortSteps(courses, priceOrder, dateOrder, dateKey);
    SortStepsIdempotent(courses, priceOrder, dateOrder, dateKey);
    if region != "all" {
      var p := ExactRegion(region);
      FilterSortSteps(sorted, priceOrder, dateOrder, dateKey, p);
      FilterIdempotent(sorted, p);
    }
  }

  /** The two pages agree on which regions pass when the case matches, and
      differ otherwise: the search page keeps a `"UK"` listing for region
      `"uk"`, this page drops it. */
  lemma RegionMatchingDiffers(x: Listing, dateKey: string -> int)
    requires x.region == "UK"
    ensures SearchPage.SearchFilters([x], None, None, "uk", dateKey) == [x]
    ensures CoursesFilters([x], None, None, "uk", dateKey) == []
  {
    assert [x] == [] + [x];
    assert Filter([x], SearchPage.CaselessRegion("uk")) == [x] by {
      assert Lower("UK") == Lower("uk") by {
        assert Lower("UK")[0] == 'u' && Lower("UK")[1] == 'k';
      }
      FilterSnoc([], x, SearchPage.CaselessRegion("uk"));
    }
    assert Filter([x], ExactRegion("uk")) == [] by {
      FilterSnoc([], x, ExactRegion("uk"));
    }
  }

  // ---------------------------------------------------------------------
  // Display rules

  /** `searchParams ? searchParams.get('course_name') || '' : ''` */
  function CourseNameParam(params: Option<map<string, string>>): (name: string)
    ensures params.None? ==> name == ""
    ensures params.Some? && "course_name" !in params.value ==> name == ""
    ensures params.Some? && "course_name" in params.value ==> name == params.value["course_name"]
  {
    match params
    case None => ""
    case Some(m) => if "course_name" in m then m["course_name"] else ""
  }

  /** The card title, `coursename.split('\n')[0]`: everything before the
      first line break. */
  function CardTitle(coursename: string): (title: string)
    ensures |title| <= |coursename| && title == coursename[..|title|]
    ensures '\n' !in title
    ensures |title| < |coursename| ==> coursename[|title|] == '\n'
    decreases |coursename|
  {
    if |coursename| == 0 || coursename[0] == '\n' then ""
    else [coursename[0]] + CardTitle(coursename[1..])
  }

  /** The title is the only prefix without a line break that ends at a line
      break or at the end; in particular a name without one is its own
      title. */
  lemma CardTitleUnique(coursename: string, t: string)
    requires |t| <= |coursename| && t == coursename[..|t|] && '\n' !in t
    requires |t| < |coursename| ==> coursename[|t|] == '\n'
    ensures CardTitle(coursename) == t
  {
    var title := CardTitle(coursename);
    forall i | 0 <= i < |t| ensures coursename[i] != '\n' {
      assert t[i] == coursename[i];
    }
    forall i | 0 <= i < |title| ensures coursename[i] != '\n' {
      assert title[i] == coursename[i];
    }
    assert |title| == |t|;
  }

  /** `value ? value : 'TBD'` */
  function OrTBD(value: string): (shown: string)
    ensures shown != ""
    ensures value != "" ==> shown == value
    ensures value == "" ==> shown == "TBD"
  {
    if value == "" then "TBD" else value
  }

  /** What one card shows. */
  datatype Card = Card(
    image: string, alt: string, title: string, duration: string, startDate: string,
    company: string, price: int, link: string)

  /** The card of one listing. */
  function CardOf(c: Listing): (card: Card)
    ensures card.image == ImageSrc(c.brandImage) && card.alt == ImageAlt(c.brandname)
    ensures card.title == CardTitle(c.coursename)
    ensures card.duration == OrTBD(c.duration) && card.startDate == OrTBD(c.startDate)
    ensures card.company == c.website && card.price == c.price && card.link == c.url
  {
    Card(ImageSrc(c.brandImage), ImageAlt(c.brandname), CardTitle(c.coursename),
         OrTBD(c.duration), OrTBD(c.startDate), c.website, c.price, c.url)
  }

  // ---------------------------------------------------------------------
  // The page state

  class CourseSearchPage {
    /** The `course_name` parameter the page was opened with. */
    const courseName: string
    var courses: seq<Listing>
    var filteredCourses: seq<Listing>
    var selectedPriceOrder: Option<string>
    var selectedDateOrder: Option<string>
    /** Starts as `'all'`; the page offers no control that changes it. */
    var selectedRegion: string
    /** `new Date(s).getTime()`, as an integer key. */
    const dateKey: string -> int

    /** The shown list is the pipeline applied to the fetched courses. */
    predicate Consistent()
      reads this
    {
      filteredCourses == CoursesFilters(courses, selectedPriceOrder, selectedDateOrder, selectedRegion, dateKey)
    }

    constructor (params: Option<map<string, string>>, dateKey: string -> int)
      ensures courseName == CourseNameParam(params) && this.dateKey == dateKey
      ensures courses == [] && filteredCourses == []
      ensures selectedPriceOrder == None && selectedDateOrder == None && selectedRegion == "all"
      ensures Consistent()
    {
      courseName := CourseNameParam(params);
      this.dateKey := dateKey;
      courses, filteredCourses := [], [];
      selectedPriceOrder, selectedDateOrder, selectedRegion := None, None, "all";
    }

    /** `applyFilters(coursesToFilter)`: a copy is sorted in place by each
        chosen order and then filtered by region. */
    method ApplyFilters(coursesToFilter: seq<Listing>)
      modifies this`filteredCourses
      ensures filteredCourses
           == CoursesFilters(coursesToFilter, selectedPriceOrder, selectedDateOrder, selectedRegion, dateKey)
    {
      var filtered := new Listing[|coursesToFilter|](i requires 0 <= i < |coursesToFilter| => coursesToFilter[i]);
      assert filtered[..] == coursesToFilter;
      if Chosen(selectedPriceOrder) {
        SortInPlace(filtered, PriceKey(selectedPriceOrder.value));
      }
      assert filtered[..] == PriceStep(coursesToFilter, selectedPriceOrder);
      if Chosen(selectedDateOrder) {
        SortInPlace(filtered, DateKey(selectedDateOrder.value, dateKey));
      }
      var result := filtered[..];
      if selectedRegion != "all" {
        result := Filter(result, ExactRegion(selectedRegion));
      }
      filteredCourses := result;
    }

    /** The course fetch: the page's course name is requested
        (`requested`); a response replaces `courses` and shows it
        filtered; a failure changes nothing. */
    method FetchCourses(outcome: Fetch<seq<Listing>>) returns (requested: string)
      modifies this`courses, this`filteredCourses
      ensures requested == courseName
      ensures outcome.Fetched? ==> courses == outcome.data && Consistent()
      ensures outcome.Failed? ==> courses == old(courses) && filteredCourses == old(filteredCourses)
    {
      requested := courseName;
      if outcome.Fetched? {
        courses := outcome.data;
        ApplyFilters(outcome.data);
      }
    }

    /** `handleFilterChange`, the Apply button: the fetched courses are
        filtered afresh, so on a consistent page it changes nothing. */
    method HandleFilterChange()
      modifies this`filteredCourses
      ensures Consistent()
      ensures old(Consistent()) ==> filteredCourses == old(filteredCourses)
    {
      ApplyFilters(courses);
    }

    /** Choosing a price order; the list's effect then re-filters the
        fetched courses. */
    method SelectPriceOrder(value: string)
      modifies this`selectedPriceOrder, this`filteredCourses
      ensures selectedPriceOrder == Some(value) && Consistent()
    {
      selectedPriceOrder := Some(value);
      ApplyFilters(courses);
    }

    /** Choosing a date order; the list's effect then re-filters the
        fetched courses. */
    method SelectDateOrder(value: string)
      modifies this`selectedDateOrder, this`filteredCourses
      ensures selectedDateOrder == Some(value) && Consistent()
    {
      selectedDateOrder := Some(value);
      ApplyFilters(courses);
    }
  }
}

# Course scanner storefront: selection, listing and contact-form logic

This project models the client-side logic of a course-comparison website and
proves properties of it. The site is a set of React page components that
read search filters, fetch course listings from a remote API and render
result cards. Four parts are modelled:

- **The home search form** (`src/pages/Component.tsx`). Choosing a brand clears the
  chosen course and loads that brand's courses. The course list is
  deduplicated by course name, keeping the first entry of each name, and
  stably sorted by start date. Brand labels are title-cased and long course
  names are cut to 40 characters. Submitting sends the four search
  parameters; an empty result shows a popup and a non-empty one navigates
  to the results page.
- **The search results page** (`src/app/search/page.tsx`). It refuses to fetch
  unless all four query parameters are present and non-empty. It keeps ten
  fields of each returned record, and a failed fetch empties both lists.
  Apply runs the filter pipeline on a copy of the fetched list: a stable
  price sort, then a stable date sort (so dates decide and prices break
  ties), then a region filter that ignores case.
- **The course-name results page** (`src/app/searchcourse/CoursesPage.tsx`). It
  runs the same pipeline but compares regions exactly. It re-runs the
  pipeline whenever the list or a selection changes or Apply is pressed.
  It renders each listing with display defaults: the title is the text
  before the first line break, empty durations and dates show `TBD`, and a
  missing image is replaced by `/bg.png`.
- **The contact form** (`src/app/contact_us/page.tsx`). It has four fields, a loading
  flag, an error message and a success message. Submitting clears both
  messages and refuses an empty purpose without posting. Otherwise it posts
  the form; success empties the form and failure records the server's
  error or a default one. Loading always ends false.

Files and modules:

- `wrappers.dfy` (`Wrappers`): `Option`, and `Fetch`, the outcome of a request.
- `text.dfy` (`Text`): the regular-expression class `\w` and ASCII case
  mapping.
- `stable_sort.dfy` (`StableSort`), the sorting core:
  - `SortBy`, a stable sort by an integer key, used as the specification;
  - `Filter`;
  - their laws: sorted, permutation, stable, idempotent, commutes with
    filtering, and unique given sortedness and stability;
  - `SortInPlace`, an insertion sort on an array proved to compute `SortBy`.
- `catalog.dfy` (`Catalog`): what the pages share.
  - The search query and the listing record.
  - The price and date sort steps. JavaScript's `Array.prototype.sort` is
    stable; a comparator `b - a` is an ascending sort by the negated key.
  - The image fallbacks.
- `home_search.dfy` (`HomeSearch`): the home search form, as the class
  `HomeSearchForm`. The deduplication is written as the code does it
  (`Set` of names, `find` for each name, drop `undefined`). It is proved
  equal to a plain first-occurrence definition.
- `search_page.dfy` (`SearchPage`): the search results page, as the class
  `ResultsPage`.
- `courses_page.dfy` (`CoursesPage`): the course-name page, as the class
  `CourseSearchPage`, with the invariant `Consistent()`.
- `contact_form.dfy` (`ContactForm`): the contact form, as the class
  `ContactPage`.

Modelling choices:

- **Inputs from outside.** Date parsing (`new Date(s).getTime()`) is a
  function parameter `dateKey: string -> int`. Prices are integers.
  Every network answer is a parameter: `Fetch.Fetched(data)` or
  `Fetch.Failed` for the listing requests, `PostOutcome` for the contact
  post. A method that would issue a request returns what it requests.
- **Truthiness.** A JavaScript `string | undefined` selection is an
  `Option<string>`, and it is truthy when it is `Some` of a non-empty
  string (`Catalog.Chosen`).
- **Behaviour of the code worth noting:**
  - Regions are compared without case on the search page
    (`src/app/search/page.tsx:122`) and exactly on the course-name page
    (`src/app/searchcourse/CoursesPage.tsx:208`). `CoursesPage.RegionMatchingDiffers`
    exhibits a listing that one page keeps and the other drops.
  - A successful search fetch shows the fetched list unsorted and
    unfiltered (`src/app/search/page.tsx:88-89`). The pipeline runs only
    when Apply is pressed.
  - Neither results page offers a control that changes `selectedRegion`.
    It stays `'all'`, so the region filter is modelled but never active in
    the page state.
  - Missing record fields are not defaulted to empty strings; the mapping
    copies the ten fields as they are.
  - No request is ever discarded as stale.
- **`capitalize`.** Its second replacement (`/-\w/g`) never changes
  anything. A `-` is not a word character, so the first replacement has
  already upper-cased every word character that follows one
  (`HomeSearch.CapitalizeSpec`).

## Model

| member | source | states |
|---|---|---|
| StableSort.SortBySorted | src/app/search/page.tsx:115-120 | a sort by a key yields a sequence ascending by that key |
| StableSort.SortByPermutes | src/app/search/page.tsx:115-120 | a sort yields the same elements with the same multiplicities and the same length |
| StableSort.SortByStable | src/app/search/page.tsx:115-120 | elements with equal keys keep their input order, since `Array.prototype.sort` is stable |
| StableSort.SortByIdempotent | src/app/search/page.tsx:115-120 | sorting a sorted result again changes nothing |
| StableSort.SortedUnique | src/pages/Component.tsx:61-63 | an ascending sequence that keeps the input order within every key class is exactly the stable sort, so order and stability determine the sort |
| StableSort.FilterSortBy | src/app/search/page.tsx:115-123 | filtering after a stable sort equals sorting after filtering |
| StableSort.FilterCount | src/app/search/page.tsx:121-123 | a filtered sequence holds each passing element as often as the input and no failing element |
| StableSort.FilterSorted | src/app/search/page.tsx:121-123 | filtering keeps a sequence ordered |
| StableSort.FilterIdempotent | src/app/search/page.tsx:121-123 | filtering the result again with the same condition changes nothing |
| StableSort.FilterCommute | src/app/search/page.tsx:121-123 | two filters give the same result in either order |
| StableSort.SortInPlace | src/pages/Component.tsx:61-63 | the in-place insertion sort leaves the array holding the stable sort of its old contents |
| StableSort.InsertInPlace | src/pages/Component.tsx:61-63 | one pass of the inner loop inserts `a[i]` into the sorted prefix after every element whose key is at most its own |
| Catalog.SearchQuery.Params | src/pages/Component.tsx:113-120 | the query string carries exactly the keys `brandname`, `course_id`, `start_date`, `region` with the query's values |
| Catalog.PriceStepOrder | src/app/search/page.tsx:115-117 | with `low-to-high` the prices ascend, with any other chosen price order they descend |
| Catalog.DateStepOrder | src/app/search/page.tsx:118-120 | with `newest` the date keys descend, with any other chosen date order they ascend |
| Catalog.SortStepsPermutes | src/app/search/page.tsx:113-120 | the two sort steps only reorder the copy |
| Catalog.DateTiesKeepPriceOrder | src/app/search/page.tsx:115-120 | among listings with equal date keys the price step's order survives, so with both orders chosen each date class is in price order |
| Catalog.FilterSortSteps | src/app/search/page.tsx:115-123 | any filter may be applied before or after the two sort steps |
| Catalog.SortStepsIdempotent | src/app/search/page.tsx:115-120 | running the price and date steps on their own result changes nothing |
| Catalog.ImageSrc | src/app/search/page.tsx:145 | the image is the brand image, or `/bg.png` when that is empty |
| Catalog.ImageAlt | src/app/searchcourse/CoursesPage.tsx:86 | the alternative text is the brand name, or `Course Image` when that is empty |
| Text.UpperChar | src/pages/Component.tsx:102-103 | upper-casing maps each lower-case ASCII letter to the upper-case letter at the same place in the alphabet, changes no other character, and keeps the `\w` class |
| Text.LowerChar | src/app/search/page.tsx:122 | lower-casing maps each upper-case ASCII letter to the lower-case letter at the same place in the alphabet and changes no other character |
| Text.Lower | src/app/search/page.tsx:122 | lower-casing keeps the length and maps each character through `LowerChar` |
| HomeSearch.UniqueCoursesAreFirstOccurrences | src/pages/Component.tsx:57-59 | the `Set`/`find`/`filter` deduplication equals the list of entries whose name no earlier entry has, in input order |
| HomeSearch.UniqueCoursesSpec | src/pages/Component.tsx:57-59 | the deduplicated names are pairwise distinct; each entry is the first input entry with its name; entries keep the order of first appearance; only input entries occur; every input name is represented |
| HomeSearch.UniqueCoursesDistinct | src/pages/Component.tsx:57-59 | no two deduplicated entries share a name |
| HomeSearch.UniqueCoursesCover | src/pages/Component.tsx:57-59 | every input course name appears in the deduplicated list |
| HomeSearch.FirstIndicesSpec | src/pages/Component.tsx:57-59 | the first-occurrence positions ascend, and a position is listed exactly when its entry is the first with its name |
| HomeSearch.CourseListSpec | src/pages/Component.tsx:61-63 | the course list is a permutation of the deduplicated list, ascending by start-date key, with equal dates in deduplicated order |
| HomeSearch.CourseListDistinct | src/pages/Component.tsx:57-63 | the sorted course list still has pairwise-distinct names, represents every input name and holds only input entries |
| HomeSearch.CapitalizeSpec | src/pages/Component.tsx:100-104 | `capitalize` keeps the length, upper-cases exactly the word characters that start a word (in particular every one after `-`) and leaves all other characters unchanged |
| HomeSearch.BrandLabelSpec | src/pages/Component.tsx:173 | a brand label is the lower-cased name with every word start upper-cased, of the same length |
| HomeSearch.CourseLabel | src/pages/Component.tsx:185 | a name of at most 40 characters is shown whole; a longer one as its first 40 characters followed by `...` |
| HomeSearch.OrEmpty | src/pages/Component.tsx:116-117 | an absent or empty control value reads as `''` |
| HomeSearch.HomeSearchForm.constructor | src/pages/Component.tsx:33-39 | the form starts with no brand names, no selected brand or course, no courses, no search results and the popup hidden |
| HomeSearch.HomeSearchForm.LoadBrandNames | src/pages/Component.tsx:45-50 | a brand response sets the brand names to the records' names in order; a failure changes nothing |
| HomeSearch.HomeSearchForm.BrandLabels | src/pages/Component.tsx:171-173 | one option label per brand name, each its `BrandLabel` |
| HomeSearch.HomeSearchForm.CourseLabels | src/pages/Component.tsx:183-185 | one option label per course, each its `CourseLabel` |
| HomeSearch.HomeSearchForm.HandleBrandNameChange | src/pages/Component.tsx:95-98 | the new brand is selected and the chosen course becomes `''` |
| HomeSearch.HomeSearchForm.HandleCourseNameChange | src/pages/Component.tsx:106-108 | only the chosen course changes |
| HomeSearch.HomeSearchForm.RefreshCourseNames | src/pages/Component.tsx:52-71 | with no brand the list empties and nothing is requested; otherwise the brand is requested and a response sets the list to the sorted deduplicated courses, while a failure keeps the list |
| HomeSearch.HomeSearchForm.FormData | src/pages/Component.tsx:113-118 | the query holds the selected brand and course and the start-date and region values, absent ones as `''` |
| HomeSearch.HomeSearchForm.HandleSubmit | src/pages/Component.tsx:110-138 | the query is the form data; an empty result shows the popup without navigating; a non-empty one hides it and navigates with the same query; a failure shows the popup |
| HomeSearch.HomeSearchForm.ClosePopup | src/pages/Component.tsx:226 | the popup is hidden |
| SearchPage.SearchFiltersContents | src/app/search/page.tsx:112-126 | with region `''` or `'all'` the result is a permutation of `courses`; otherwise it holds exactly the listings whose region matches without case, each as often as in `courses` |
| SearchPage.SearchFiltersFilterFirst | src/app/search/page.tsx:112-126 | with a region filter the result is the matching listings, sorted |
| SearchPage.SearchFiltersOrder | src/app/search/page.tsx:115-123 | the result is ordered by date key when a date order is chosen, otherwise by price when a price order is chosen, and is in price order within each date when both are chosen |
| SearchPage.SearchFiltersIdempotent | src/app/search/page.tsx:112-126 | running the pipeline on its own result changes nothing |
| SearchPage.ReadQuery | src/app/search/page.tsx:56-66 | a query is read exactly when all four parameters are present and non-empty, and it carries their values |
| SearchPage.ReadQueryRoundTrip | src/app/search/page.tsx:56-66 | the home page's query is read back unchanged exactly when all its parameters are non-empty |
| SearchPage.Extract | src/app/search/page.tsx:75-86 | the record keeps the ten fields, values unchanged |
| SearchPage.ExtractRoundTrip | src/app/search/page.tsx:75-86 | the mapping drops the other fields and nothing else: it inverts attaching other fields, and its result does not depend on them |
| SearchPage.ExtractAll | src/app/search/page.tsx:75 | the response is mapped element by element, in order |
| SearchPage.ResultsPage.constructor | src/app/search/page.tsx:106-110 | the page starts with both lists empty, no price or date order, and region `'all'` |
| SearchPage.ResultsPage.FetchCourses | src/app/search/page.tsx:53-100 | with an empty query, or a missing or empty parameter, nothing is requested and nothing changes; otherwise a response sets both lists to the mapped records and a failure empties both |
| SearchPage.ResultsPage.ApplyFilters | src/app/search/page.tsx:112-126 | the shown list becomes the pipeline on a copy of `courses`, which is left unchanged |
| SearchPage.ResultsPage.SetPriceOrder | src/app/search/page.tsx:184 | the price order becomes the chosen value |
| SearchPage.ResultsPage.SetDateOrder | src/app/search/page.tsx:201 | the date order becomes the chosen value |
| CoursesPage.CoursesFiltersContents | src/app/searchcourse/CoursesPage.tsx:198-211 | with region `'all'` the result is a permutation; otherwise it holds exactly the listings whose region is the selected one, each as often as in the input, and is the sorted list of those listings |
| CoursesPage.CoursesFiltersIdempotent | src/app/searchcourse/CoursesPage.tsx:198-211 | running the pipeline on its own result changes nothing |
| CoursesPage.RegionMatchingDiffers | src/app/searchcourse/CoursesPage.tsx:207-209 | a `UK` listing for region `uk` is kept by the search page's pipeline and dropped by this page's |
| CoursesPage.CourseNameParam | src/app/searchcourse/CoursesPage.tsx:191 | a missing `course_name` parameter, or missing parameters, read as `''` |
| CoursesPage.CardTitle | src/app/searchcourse/CoursesPage.tsx:94 | the title is a prefix of the name without a line break that ends at the first line break or at the end |
| CoursesPage.CardTitleUnique | src/app/searchcourse/CoursesPage.tsx:94 | that prefix is the only one, so a name without a line break is its own title |
| CoursesPage.OrTBD | src/app/searchcourse/CoursesPage.tsx:97-100 | an empty value shows as `TBD`, any other unchanged |
| CoursesPage.CardOf | src/app/searchcourse/CoursesPage.tsx:84-106 | a card shows the image and alternative-text fallbacks, the title, `TBD` defaults, the site, the price and the link |
| CoursesPage.CourseSearchPage.constructor | src/app/searchcourse/CoursesPage.tsx:191-196 | the page starts with the `course_name` parameter, empty lists, no orders, region `'all'`, and is consistent |
| CoursesPage.CourseSearchPage.ApplyFilters | src/app/searchcourse/CoursesPage.tsx:198-211 | the shown list becomes the pipeline on a copy of the given list |
| CoursesPage.CourseSearchPage.FetchCourses | src/app/searchcourse/CoursesPage.tsx:213-225 | the course name is requested; a response sets `courses` to the data and shows it filtered; a failure changes nothing |
| CoursesPage.CourseSearchPage.HandleFilterChange | src/app/searchcourse/CoursesPage.tsx:227-229 | Apply re-filters the fetched courses, so pressing it on a consistent page leaves the shown list as it was |
| CoursesPage.CourseSearchPage.SelectPriceOrder | src/app/searchcourse/CoursesPage.tsx:65-67 | choosing a price order re-filters the fetched courses and keeps the page consistent |
| CoursesPage.CourseSearchPage.SelectDateOrder | src/app/searchcourse/CoursesPage.tsx:65-67 | choosing a date order re-filters the fetched courses and keeps the page consistent |
| ContactForm.EmptyForm | src/app/contact_us/page.tsx:12-17 | the form has exactly the fields name, email, purpose and message, all `""` |
| ContactForm.ErrorMessage | src/app/contact_us/page.tsx:53 | the error shown is the server's error string when present and non-empty, otherwise the default message |
| ContactForm.ContactPage.constructor | src/app/contact_us/page.tsx:12-21 | the page starts with the empty form, not loading, and no messages |
| ContactForm.ContactPage.HandleChange | src/app/contact_us/page.tsx:23-25 | the field named by the input id takes the value, every other field is unchanged |
| ContactForm.ContactPage.HandleSelectChange | src/app/contact_us/page.tsx:27-29 | only `purpose` changes |
| ContactForm.ContactPage.BeginSubmit | src/app/contact_us/page.tsx:33-41 | messages are cleared and loading starts; an empty purpose sets `Purpose is required.`, ends loading and stops before the post |
| ContactForm.ContactPage.FinishSubmit | src/app/contact_us/page.tsx:44-56 | success records the server message and resets all four fields; failure records the error message and keeps the form; loading ends false |
| ContactForm.ContactPage.HandleSubmit | src/app/contact_us/page.tsx:31-57 | an empty purpose gives the required-purpose error with no post and an unchanged form; otherwise the form is posted and the outcome recorded; loading is false on every path |

## Left out

- Network calls (`fetch`, `axios.post`) are left out. Each answer is a parameter of the method that would await it, and the request is the method's result.
- React effect scheduling and re-rendering are left out. Each effect is a method the caller invokes. On the course-name page a new selection also re-runs the fetch effect, because `applyFilters` is one of its dependencies; the model re-filters but does not issue that second request.
- Router navigation is left out. It is recorded only as the query the home form would navigate with.
- `Date` parsing and `NaN` are left out: start dates are compared through the abstract integer `dateKey`. Floating-point prices are left out: prices are integers, so `a.price - b.price` never rounds.
- `URLSearchParams` is left out. Duplicate keys and percent-encoding are not modelled: parameters are a `map` from names to strings, and the query string is the four-key map.
- `Text.Lower` covers ASCII letters only: `toLowerCase` on other characters is not modelled. The upper-casing in `Capitalize` is exact, because without the `u` flag `\w` and `\b` match ASCII word characters only, so only ASCII letters are ever upper-cased. String lengths count characters, not UTF-16 code units.
- Response bodies that are not arrays or whose records lack fields are left out: the model's responses are well-typed lists. On the course-name page a non-array body would set `courses` before `applyFilters` throws, and the model does not capture that state.
- The `today` date effect, the `topCourses` table, `handleLinkClick` and the unused `courseName`, `courses` and `error` state of `src/pages/Component.tsx` are left out, as static data or navigation.
- Logging through `console.error` is left out.
- Last-request-wins or stale-response handling does not exist in the code, so the model applies every response it is given.
- The page layout, the Submit button's disabled state and all markup are left out.

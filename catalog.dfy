/** What the home search form and the two result pages share: the search
    query handed from one to the other, the listing record the search
    endpoints return, and the price and date sorting steps that both
    result pages run before their region filter. */
module Catalog {
  import opened Wrappers
  import opened StableSort

  /** The four search parameters (`formData` in src/pages/Component.tsx,
      `searchParamsObj` in src/app/search/page.tsx). */
  datatype SearchQuery = SearchQuery(brandname: string, courseId: string, startDate: string, region: string)
  {
    /** The query as `URLSearchParams` holds it: exactly the four keys. */
    function Params(): (m: map<string, string>)
      ensures m.Keys == {"brandname", "course_id", "start_date", "region"}
      ensures m["brandname"] == brandname && m["course_id"] == courseId
      ensures m["start_date"] == startDate && m["region"] == region
    {
      map["brandname" := brandname, "course_id" := courseId,
          "start_date" := startDate, "region" := region]
    }

    /** Every parameter is non-empty. */
    predicate Complete() {
      brandname != "" && courseId != "" && startDate != "" && region != ""
    }
  }

  /** One course listing as the result pages hold it. */
  datatype Listing = Listing(
    website: string, brandname: string, coursename: string, duration: string,
    price: int, region: string, startDate: string, brandImage: string,
    url: string, courseId: string)

  /** A JavaScript `string | undefined` selection is truthy. */
  predicate Chosen(o: Option<string>) {
    o.Some? && o.value != ""
  }

  /** The sort key of the price comparator: `a.price - b.price` for
      `low-to-high`, `b.price - a.price` for any other chosen order. */
  function PriceKey(order: string): Listing -> int {
    if order == "low-to-high" then (c: Listing) => c.price else (c: Listing) => -c.price
  }

  /** The sort key of the date comparator: later dates first for `newest`,
      earlier dates first for any other chosen order.  `dateKey` stands for
      `new Date(s).getTime()`. */
  function DateKey(order: string, dateKey: string -> int): Listing -> int {
    if order == "newest" then (c: Listing) => -dateKey(c.startDate)
    else (c: Listing) => dateKey(c.startDate)
  }

  /** `if (selectedPriceOrder) filtered.sort(...)` */
  function PriceStep(s: seq<Listing>, priceOrder: Option<string>): seq<Listing> {
    if Chosen(priceOrder) then SortBy(s, PriceKey(priceOrder.value)) else s
  }

  /** `if (selectedDateOrder) filtered.sort(...)` */
  function DateStep(s: seq<Listing>, dateOrder: Option<string>, dateKey: string -> int): seq<Listing> {
    if Chosen(dateOrder) then SortBy(s, DateKey(dateOrder.value, dateKey)) else s
  }

  /** Both sorts of `applyFilters`, price first, then date. */
  function SortSteps(s: seq<Listing>, priceOrder: Option<string>, dateOrder: Option<string>,
                     dateKey: string -> int): seq<Listing> {
    DateStep(PriceStep(s, priceOrder), dateOrder, dateKey)
  }

  /** The card image: `brand_image || '/bg.png'`. */
  function ImageSrc(brandImage: string): (src: string)
    ensures src != ""
    ensures brandImage != "" ==> src == brandImage
    ensures brandImage == "" ==> src == "/bg.png"
  {
    if brandImage == "" then "/bg.png" else brandImage
  }

  /** The card image's alternative text: `brandname || 'Course Image'`. */
  function ImageAlt(brandname: string): (alt: string)
    ensures alt != ""
    ensures brandname != "" ==> alt == brandname
    ensures brandname == "" ==> alt == "Course Image"
  {
    if brandname == "" then "Course Image" else brandname
  }

  // ---------------------------------------------------------------------
  // Properties of the sorting steps

  /** Low-to-high is ascending by price, any other chosen order descending. */
  lemma PriceStepOrder(s: seq<Listing>, priceOrder: Option<string>)
    requires Chosen(priceOrder)
    ensures var r := PriceStep(s, priceOrder);
      (priceOrder.value == "low-to-high" ==> forall i, j :: 0 <= i < j < |r| ==> r[i].price <= r[j].price) &&
      (priceOrder.value != "low-to-high" ==> forall i, j :: 0 <= i < j < |r| ==> r[i].price >= r[j].price)
  {
    var key := PriceKey(priceOrder.value);
    SortBySorted(s, key);
    var r := PriceStep(s, priceOrder);
    assert forall i, j :: 0 <= i < j < |r| ==> key(r[i]) <= key(r[j]);
  }

  /** Oldest-first is ascending by date key, newest-first descending. */
  lemma DateStepOrder(s: seq<Listing>, dateOrder: Option<string>, dateKey: string -> int)
    requires Chosen(dateOrder)
    ensures var r := DateStep(s, dateOrder, dateKey);
      (dateOrder.value == "newest" ==>
        forall i, j :: 0 <= i < j < |r| ==> dateKey(r[i].startDate) >= dateKey(r[j].startDate)) &&
      (dateOrder.value != "newest" ==>
        forall i, j :: 0 <= i < j < |r| ==> dateKey(r[i].startDate) <= dateKey(r[j].startDate))
  {
    var key := DateKey(dateOrder.value, dateKey);
    SortBySorted(s, key);
    var r := DateStep(s, dateOrder, dateKey);
    assert forall i, j :: 0 <= i < j < |r| ==> key(r[i]) <= key(r[j]);
  }

  /** The sorting steps only reorder. */
  lemma SortStepsPermutes(s: seq<Listing>, priceOrder: Option<string>, dateOrder: Option<string>,
                          dateKey: string -> int)
    ensures |SortSteps(s, priceOrder, dateOrder, dateKey)| == |s|
    ensures multiset(SortSteps(s, priceOrder, dateOrder, dateKey)) == multiset(s)
  {
    if Chosen(priceOrder) {
      SortByPermutes(s, PriceKey(priceOrder.value));
    }
    if Chosen(dateOrder) {
      SortByPermutes(PriceStep(s, priceOrder), DateKey(dateOrder.value, dateKey));
    }
  }

  /** The date sort is stable: listings with the same date key stay in the
      order the price step left them in, so price breaks date ties. */
  lemma DateTiesKeepPriceOrder(s: seq<Listing>, priceOrder: Option<string>, dateOrder: Option<string>,
                               dateKey: string -> int, k: int)
    requires Chosen(dateOrder)
    ensures var key := DateKey(dateOrder.value, dateKey);
      KeyClass(SortSteps(s, priceOrder, dateOrder, dateKey), key, k)
        == KeyClass(PriceStep(s, priceOrder), key, k)
    ensures Chosen(priceOrder) ==>
      SortedBy(KeyClass(SortSteps(s, priceOrder, dateOrder, dateKey), DateKey(dateOrder.value, dateKey), k),
               PriceKey(priceOrder.value))
  {
    var key := DateKey(dateOrder.value, dateKey);
    SortByStable(PriceStep(s, priceOrder), key, k);
    if Chosen(priceOrder) {
      SortBySorted(s, PriceKey(priceOrder.value));
      FilterSorted(PriceStep(s, priceOrder), KeyIs(key, k), PriceKey(priceOrder.value));
    }
  }

  /** Any filter may be applied before or after the sorting steps. */
  lemma FilterSortSteps(s: seq<Listing>, priceOrder: Option<string>, dateOrder: Option<string>,
                        dateKey: string -> int, p: Listing -> bool)
    ensures Filter(SortSteps(s, priceOrder, dateOrder, dateKey), p)
         == SortSteps(Filter(s, p), priceOrder, dateOrder, dateKey)
  {
    if Chosen(priceOrder) {
      FilterSortBy(s, PriceKey(priceOrder.value), p);
    }
    if Chosen(dateOrder) {
      FilterSortBy(PriceStep(s, priceOrder), DateKey(dateOrder.value, dateKey), p);
    }
  }

  /** Sorting a second time with the same selections changes nothing. */
  lemma {:induction false} SortStepsIdempotent(s: seq<Listing>, priceOrder: Option<string>,
                                               dateOrder: Option<string>, dateKey: string -> int)
    ensures var r := SortSteps(s, priceOrder, dateOrder, dateKey);
      SortSteps(r, priceOrder, dateOrder, dateKey) == r
  {
    var r := SortSteps(s, priceOrder, dateOrder, dateKey);
    if Chosen(priceOrder) && Chosen(dateOrder) {
      var kp, kd := PriceKey(priceOrder.value), DateKey(dateOrder.value, dateKey);
      var r2 := SortBy(SortBy(r, kp), kd);
      assert r == SortBy(SortBy(s, kp), kd);
      SortBySorted(SortBy(r, kp), kd);
      SortBySorted(SortBy(s, kp), kd);
      forall k ensures KeyClass(r2, kd, k) == KeyClass(r, kd, k) {
        SortByStable(SortBy(r, kp), kd, k);
        FilterSortBy(r, kp, KeyIs(kd, k));
        SortByStable(SortBy(s, kp), kd, k);
        FilterSortBy(s, kp, KeyIs(kd, k));
        SortByIdempotent(KeyClass(s, kd, k), kp);
      }
      SortedUnique(r2, r, kd);
    } else if Chosen(priceOrder) {
      SortByIdempotent(s, PriceKey(priceOrder.value));
    } else if Chosen(dateOrder) {
      SortByIdempotent(s, DateKey(dateOrder.value, dateKey));
    }
  }
}

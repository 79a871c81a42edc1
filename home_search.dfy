/** The home page's search form (src/pages/Component.tsx): choosing a brand
    resets the chosen course and loads that brand's course list, which is
    deduplicated by course name and sorted by start date; submitting the
    form assembles the four search parameters, shows a "no data" popup for
    an empty result and navigates to the result page otherwise. */
module HomeSearch {
  import opened Wrappers
  import opened StableSort
  import opened Text
  import Catalog

  /** One entry of a brand's course list. */
  datatype Course = Course(
    courseId: string, coursename: string, brandname: string, price: int,
    region: string, duration: string, startDate: string, url: string)

  /** One entry of the brand list response (`{brandname}`). */
  datatype BrandRecord = BrandRecord(brandname: string)

  // ---------------------------------------------------------------------
  // Deduplication by course name, as the effect writes it:
  //   Array.from(new Set(data.map(c => c.coursename)))
  //     .map(name => data.find(c => c.coursename === name))
  //     .filter(c => c !== undefined)

  /** `data.map(item => item.coursename)` */
  function Names(data: seq<Course>): (r: seq<string>)
    ensures |r| == |data| && forall i :: 0 <= i < |data| ==> r[i] == data[i].coursename
  {
    seq(|data|, i requires 0 <= i < |data| => data[i].coursename)
  }

  /** The iteration order of `new Set(names)`: each name once, in the order
      it was first added. */
  function SetOrder(names: seq<string>): seq<string>
    decreases |names|
  {
    if |names| == 0 then []
    else
      var p := SetOrder(names[..|names| - 1]);
      if names[|names| - 1] in p then p else p + [names[|names| - 1]]
  }

  /** `data.find(course => course.coursename === name)` */
  function Find(data: seq<Course>, name: string): Option<Course>
    decreases |data|
  {
    if |data| == 0 then None
    else if data[0].coursename == name then Some(data[0])
    else Find(data[1..], name)
  }

  /** `names.map(name => data.find(...))` */
  function FindEach(data: seq<Course>, names: seq<string>): seq<Option<Course>> {
    seq(|names|, i requires 0 <= i < |names| => Find(data, names[i]))
  }

  /** `.filter((course): course is Course => course !== undefined)` */
  function Defined(xs: seq<Option<Course>>): seq<Course>
    decreases |xs|
  {
    if |xs| == 0 then []
    else
      var last := xs[|xs| - 1];
      Defined(xs[..|xs| - 1]) + (if last.Some? then [last.value] else [])
  }

  /** The deduplicated course list. */
  function UniqueCourses(data: seq<Course>): seq<Course> {
    Defined(FindEach(data, SetOrder(Names(data))))
  }

  // The reference definition: keep an entry when no earlier entry has its name.

  /** Entry `i` is the first entry with its name. */
  ghost predicate IsFirst(data: seq<Course>, i: int)
    requires 0 <= i < |data|
  {
    forall k :: 0 <= k < i ==> data[k].coursename != data[i].coursename
  }

  /** The entries that are the first with their name, in input order. */
  function FirstOccurrences(data: seq<Course>): seq<Course>
    decreases |data|
  {
    if |data| == 0 then []
    else
      var init, last := data[..|data| - 1], data[|data| - 1];
      FirstOccurrences(init) + (if last.coursename in Names(init) then [] else [last])
  }

  /** The input positions of `FirstOccurrences`. */
  function FirstIndices(data: seq<Course>): seq<nat>
    decreases |data|
  {
    if |data| == 0 then []
    else
      var init, last := data[..|data| - 1], data[|data| - 1];
      FirstIndices(init) + (if last.coursename in Names(init) then [] else [|data| - 1])
  }

  lemma NamesSnoc(init: seq<Course>, last: Course)
    ensures Names(init + [last]) == Names(init) + [last.coursename]
  {
  }

  lemma {:induction false} SetOrderMembers(names: seq<string>, x: string)
    ensures x in SetOrder(names) <==> x in names
    decreases |names|
  {
    if |names| > 0 {
      var init := names[..|names| - 1];
      assert names == init + [names[|names| - 1]];
      SetOrderMembers(init, x);
    }
  }

  lemma {:induction false} FindSnoc(init: seq<Course>, last: Course, name: string)
    ensures Find(init + [last], name)
         == if name in Names(init) then Find(init, name)
            else if last.coursename == name then Some(last) else None
    decreases |init|
  {
    if |init| > 0 {
      assert (init + [last])[1..] == init[1..] + [last];
      FindSnoc(init[1..], last, name);
      assert name in Names(init) <==> init[0].coursename == name || name in Names(init[1..]) by {
        assert forall i :: 0 < i < |init| ==> init[i] == init[1..][i - 1];
        assert forall i :: 0 <= i < |init| - 1 ==> init[1..][i] == init[i + 1];
      }
    } else {
      assert init + [last] == [last];
    }
  }

  lemma DefinedSnoc(xs: seq<Option<Course>>, y: Option<Course>)
    ensures Defined(xs + [y]) == Defined(xs) + (if y.Some? then [y.value] else [])
  {
    assert (xs + [y])[..|xs|] == xs;
  }

  lemma FindEachSnoc(init: seq<Course>, last: Course, names: seq<string>)
    requires forall i :: 0 <= i < |names| ==> names[i] in Names(init)
    ensures FindEach(init + [last], names) == FindEach(init, names)
  {
    forall i | 0 <= i < |names| ensures Find(init + [last], names[i]) == Find(init, names[i]) {
      FindSnoc(init, last, names[i]);
    }
  }

  /** The code's deduplication keeps exactly the first entry of every name,
      in input order. */
  lemma {:induction false} UniqueCoursesAreFirstOccurrences(data: seq<Course>)
    ensures UniqueCourses(data) == FirstOccurrences(data)
    decreases |data|
  {
    if |data| > 0 {
      var init, last := data[..|data| - 1], data[|data| - 1];
      assert data == init + [last];
      UniqueCoursesAreFirstOccurrences(init);
      UniqueCoursesSnoc(init, last);
    }
  }

  /** Appending an entry appends it to the deduplicated list exactly when
      its name is new. */
  lemma UniqueCoursesSnoc(init: seq<Course>, last: Course)
    ensures UniqueCourses(init + [last])
         == UniqueCourses(init) + (if last.coursename in Names(init) then [] else [last])
  {
    var data := init + [last];
    NamesSnoc(init, last);
    var p := SetOrder(Names(init));
    assert Names(data)[..|Names(data)| - 1] == Names(init);
    assert SetOrder(Names(data)) == if last.coursename in p then p else p + [last.coursename];
    forall i | 0 <= i < |p| ensures p[i] in Names(init) {
      SetOrderMembers(Names(init), p[i]);
    }
    FindEachSnoc(init, last, p);
    SetOrderMembers(Names(init), last.coursename);
    if last.coursename !in Names(init) {
      NewNameAppended(init, last, p);
    }
  }

  /** The case of `UniqueCoursesSnoc` where the name is new. */
  lemma NewNameAppended(init: seq<Course>, last: Course, p: seq<string>)
    requires last.coursename !in Names(init)
    requires FindEach(init + [last], p) == FindEach(init, p)
    ensures Defined(FindEach(init + [last], p + [last.coursename]))
         == Defined(FindEach(init, p)) + [last]
  {
    var data, q := init + [last], p + [last.coursename];
    assert FindEach(data, q) == FindEach(data, p) + [Find(data, last.coursename)];
    FindSnoc(init, last, last.coursename);
    DefinedSnoc(FindEach(data, p), Find(data, last.coursename));
  }

  /** Appending an entry keeps which earlier entries come first, and the
      new entry comes first exactly when its name is new. */
  lemma IsFirstSnoc(data: seq<Course>)
    requires |data| > 0
    ensures forall i :: 0 <= i < |data| - 1 ==> (IsFirst(data, i) <==> IsFirst(data[..|data| - 1], i))
    ensures data[|data| - 1].coursename in Names(data[..|data| - 1]) <==> !IsFirst(data, |data| - 1)
  {
    var init, last := data[..|data| - 1], data[|data| - 1];
    assert forall i :: 0 <= i < |init| ==> init[i] == data[i];
    if last.coursename in Names(init) {
      var k :| 0 <= k < |init| && Names(init)[k] == last.coursename;
      assert data[k].coursename == data[|data| - 1].coursename;
    }
  }

  /** The positions are increasing input positions of the first
      occurrences. */
  lemma {:induction false} FirstIndicesPositions(data: seq<Course>)
    ensures var fo, fi := FirstOccurrences(data), FirstIndices(data);
      |fo| == |fi| &&
      (forall j :: 0 <= j < |fi| ==> fi[j] < |data| && fo[j] == data[fi[j]]) &&
      (forall j, j' :: 0 <= j < j' < |fi| ==> fi[j] < fi[j'])
    decreases |data|
  {
    if |data| > 0 {
      var init := data[..|data| - 1];
      FirstIndicesPositions(init);
      assert forall i :: 0 <= i < |init| ==> init[i] == data[i];
    }
  }

  /** A position is listed exactly when its entry comes first. */
  lemma {:induction false} FirstIndicesMembers(data: seq<Course>)
    ensures forall i :: 0 <= i < |data| ==> (i in FirstIndices(data) <==> IsFirst(data, i))
    decreases |data|
  {
    if |data| > 0 {
      var init := data[..|data| - 1];
      FirstIndicesMembers(init);
      FirstIndicesPositions(init);
      IsFirstSnoc(data);
    }
  }

  lemma FirstIndicesSpec(data: seq<Course>)
    ensures var fo, fi := FirstOccurrences(data), FirstIndices(data);
      |fo| == |fi| &&
      (forall j :: 0 <= j < |fi| ==> fi[j] < |data| && fo[j] == data[fi[j]]) &&
      (forall j, j' :: 0 <= j < j' < |fi| ==> fi[j] < fi[j']) &&
      (forall i :: 0 <= i < |data| ==> (i in fi <==> IsFirst(data, i)))
  {
    FirstIndicesPositions(data);
    FirstIndicesMembers(data);
  }

  /** What the deduplicated list is: the names are pairwise distinct; every
      entry is the first input entry with its name; the entries appear in
      the order of their first appearance; only input entries occur; and
      every input name is represented. */
  lemma UniqueCoursesSpec(data: seq<Course>)
    ensures var r, fi := UniqueCourses(data), FirstIndices(data);
      |r| == |fi| &&
      (forall j, j' :: 0 <= j < j' < |r| ==> r[j].coursename != r[j'].coursename) &&
      (forall j :: 0 <= j < |r| ==> fi[j] < |data| && r[j] == data[fi[j]] && IsFirst(data, fi[j])) &&
      (forall j, j' :: 0 <= j < j' < |r| ==> fi[j] < fi[j']) &&
      (forall j :: 0 <= j < |r| ==> r[j] in data) &&
      (forall i :: 0 <= i < |data| ==> data[i].coursename in Names(r))
  {
    UniqueCoursesAreFirstOccurrences(data);
    FirstIndicesSpec(data);
    UniqueCoursesDistinct(data);
    UniqueCoursesCover(data);
  }

  /** No two entries of the deduplicated list share a name. */
  lemma UniqueCoursesDistinct(data: seq<Course>)
    ensures var r := UniqueCourses(data);
      forall j, j' :: 0 <= j < j' < |r| ==> r[j].coursename != r[j'].coursename
  {
    UniqueCoursesAreFirstOccurrences(data);
    FirstIndicesSpec(data);
    var r, fi := UniqueCourses(data), FirstIndices(data);
    forall j, j' | 0 <= j < j' < |r| ensures r[j].coursename != r[j'].coursename {
      assert fi[j] < fi[j'] && IsFirst(data, fi[j']);
      assert data[fi[j]].coursename != data[fi[j']].coursename;
    }
  }

  /** Every input name is represented in the deduplicated list. */
  lemma UniqueCoursesCover(data: seq<Course>)
    ensures forall i :: 0 <= i < |data| ==> data[i].coursename in Names(UniqueCourses(data))
  {
    UniqueCoursesAreFirstOccurrences(data);
    FirstIndicesSpec(data);
    var r, fi := UniqueCourses(data), FirstIndices(data);
    forall i | 0 <= i < |data| ensures data[i].coursename in Names(r) {
      FirstOfName(data, i);
      var f :| 0 <= f <= i && IsFirst(data, f) && data[f].coursename == data[i].coursename;
      var j :| 0 <= j < |fi| && fi[j] == f;
      assert Names(r)[j] == data[i].coursename;
    }
  }

  /** Every name has a first entry. */
  lemma {:induction false} FirstOfName(data: seq<Course>, i: int)
    requires 0 <= i < |data|
    ensures exists f :: 0 <= f <= i && IsFirst(data, f) && data[f].coursename == data[i].coursename
    decreases i
  {
    if !IsFirst(data, i) {
      var k :| 0 <= k < i && data[k].coursename == data[i].coursename;
      FirstOfName(data, k);
    }
  }

  // ---------------------------------------------------------------------
  // The course list

  /** The comparator `new Date(a.start_date) - new Date(b.start_date)`. */
  function StartKey(dateKey: string -> int): Course -> int {
    (c: Course) => dateKey(c.startDate)
  }

  /** The course list a fetched response becomes. */
  function CourseList(data: seq<Course>, dateKey: string -> int): seq<Course> {
    SortBy(UniqueCourses(data), StartKey(dateKey))
  }

  /** The course list is the deduplicated list reordered ascending by start
      date, entries with equal dates in deduplicated order. */
  lemma CourseListSpec(data: seq<Course>, dateKey: string -> int, k: int)
    ensures var r := CourseList(data, dateKey);
      multiset(r) == multiset(UniqueCourses(data)) &&
      (forall i, j :: 0 <= i < j < |r| ==> dateKey(r[i].startDate) <= dateKey(r[j].startDate)) &&
      KeyClass(r, StartKey(dateKey), k) == KeyClass(UniqueCourses(data), StartKey(dateKey), k)
  {
    var key := StartKey(dateKey);
    SortByPermutes(UniqueCourses(data), key);
    SortBySorted(UniqueCourses(data), key);
    SortByStable(UniqueCourses(data), key, k);
    var r := CourseList(data, dateKey);
    assert forall i, j :: 0 <= i < j < |r| ==> key(r[i]) <= key(r[j]);
  }

  /** Reordering keeps the same elements. */
  lemma SameElements(u: seq<Course>, r: seq<Course>, c: Course)
    requires multiset(r) == multiset(u)
    ensures c in r <==> c in u
  {
    assert c in r <==> c in multiset(r);
    assert c in u <==> c in multiset(u);
  }

  /** The course list keeps one entry per distinct name, every input name
      is represented, and only input entries occur. */
  lemma CourseListDistinct(data: seq<Course>, dateKey: string -> int)
    ensures var r := CourseList(data, dateKey);
      (forall i, j :: 0 <= i < j < |r| ==> r[i].coursename != r[j].coursename) &&
      (forall i :: 0 <= i < |data| ==> data[i].coursename in Names(r)) &&
      (forall c :: c in r ==> c in data)
  {
    var u := UniqueCourses(data);
    var r := CourseList(data, dateKey);
    UniqueCoursesSpec(data);
    SortByPermutes(u, StartKey(dateKey));
    forall i, j | 0 <= i < j < |r| ensures r[i].coursename != r[j].coursename {
      DistinctStaysDistinct(u, r, i, j);
    }
    forall c | c in r ensures c in data {
      SameElements(u, r, c);
    }
    forall i | 0 <= i < |data| ensures data[i].coursename in Names(r) {
      NameKept(u, r, data[i].coursename);
    }
  }

  lemma NameKept(u: seq<Course>, r: seq<Course>, name: string)
    requires multiset(r) == multiset(u) && name in Names(u)
    ensures name in Names(r)
  {
    var j :| 0 <= j < |u| && Names(u)[j] == name;
    SameElements(u, r, u[j]);
    var m :| 0 <= m < |r| && r[m] == u[j];
    assert Names(r)[m] == name;
  }

  /** Reordering a list of distinct names keeps the names distinct. */
  lemma DistinctStaysDistinct(u: seq<Course>, r: seq<Course>, i: int, j: int)
    requires forall a, b :: 0 <= a < b < |u| ==> u[a].coursename != u[b].coursename
    requires multiset(r) == multiset(u)
    requires 0 <= i < j < |r|
    ensures r[i].coursename != r[j].coursename
  {
    SameElements(u, r, r[i]);
    SameElements(u, r, r[j]);
    var a :| 0 <= a < |u| && u[a] == r[i];
    var b :| 0 <= b < |u| && u[b] == r[j];
    SingleOccurrence(u, a);
    CountPair(r, i, j);
  }

  /** Two equal elements at two positions count twice. */
  lemma CountPair(r: seq<Course>, i: int, j: int)
    requires 0 <= i < j < |r|
    ensures r[i] == r[j] ==> multiset(r)[r[i]] >= 2
  {
    assert r == r[..i] + [r[i]] + r[i + 1..j] + [r[j]] + r[j + 1..];
  }

  /** An entry whose name no other entry has occurs once. */
  lemma SingleOccurrence(u: seq<Course>, a: int)
    requires forall x, y :: 0 <= x < y < |u| ==> u[x].coursename != u[y].coursename
    requires 0 <= a < |u|
    ensures multiset(u)[u[a]] == 1
  {
    var pre, post := u[..a], u[a + 1..];
    assert u == pre + [u[a]] + post;
    assert forall x :: 0 <= x < |pre| ==> pre[x].coursename != u[a].coursename;
    assert forall x :: 0 <= x < |post| ==> post[x] == u[a + 1 + x];
    assert forall x :: 0 <= x < |post| ==> post[x].coursename != u[a].coursename;
    assert u[a] !in pre;
    assert u[a] !in post;
  }

  // ---------------------------------------------------------------------
  // Labels

  /** The first replacement of `capitalize`, `/\b\w/g`: upper-case every word
      character not preceded by a word character (`prevWord` tells whether
      the character before `s` is one). */
  function UpperWordStarts(s: string, prevWord: bool): string
    decreases |s|
  {
    if |s| == 0 then []
    else [if IsWordChar(s[0]) && !prevWord then UpperChar(s[0]) else s[0]]
         + UpperWordStarts(s[1..], IsWordChar(s[0]))
  }

  /** The second replacement of `capitalize`, `/-\w/g`: upper-case every
      `-` followed by a word character, matches taken left to right
      without overlap. */
  function UpperAfterDash(s: string): string
    decreases |s|
  {
    if |s| < 2 then s
    else if s[0] == '-' && IsWordChar(s[1]) then ['-', UpperChar(s[1])] + UpperAfterDash(s[2..])
    else [s[0]] + UpperAfterDash(s[1..])
  }

  /** `capitalize` */
  function Capitalize(s: string): string {
    UpperAfterDash(UpperWordStarts(s, false))
  }

  /** The label of a brand option: `capitalize(brandName.toLowerCase())`. */
  function BrandLabel(brandName: string): string {
    Capitalize(Lower(brandName))
  }

  /** The word character at `i` starts a word. */
  predicate StartsWord(s: string, i: int)
    requires 0 <= i < |s|
  {
    IsWordChar(s[i]) && (i == 0 || !IsWordChar(s[i - 1]))
  }

  lemma {:induction false} UpperWordStartsAt(s: string, prevWord: bool, i: int)
    requires 0 <= i < |s|
    ensures |UpperWordStarts(s, prevWord)| == |s|
    ensures UpperWordStarts(s, prevWord)[i]
         == if IsWordChar(s[i]) && !(if i == 0 then prevWord else IsWordChar(s[i - 1]))
            then UpperChar(s[i]) else s[i]
    decreases |s|
  {
    UpperWordStartsLength(s, prevWord);
    if i > 0 {
      UpperWordStartsAt(s[1..], IsWordChar(s[0]), i - 1);
    }
  }

  lemma {:induction false} UpperWordStartsLength(s: string, prevWord: bool)
    ensures |UpperWordStarts(s, prevWord)| == |s|
    decreases |s|
  {
    if |s| > 0 {
      UpperWordStartsLength(s[1..], IsWordChar(s[0]));
    }
  }

  /** Where every word character after a `-` is already upper case, the
      second replacement changes nothing. */
  lemma {:induction false} UpperAfterDashNoop(s: string)
    requires forall i :: 0 < i < |s| && s[i - 1] == '-' && IsWordChar(s[i]) ==> UpperChar(s[i]) == s[i]
    ensures UpperAfterDash(s) == s
    decreases |s|
  {
    if |s| >= 2 {
      if s[0] == '-' && IsWordChar(s[1]) {
        UpperAfterDashNoop(s[2..]);
        assert s == ['-', s[1]] + s[2..];
      } else {
        UpperAfterDashNoop(s[1..]);
        assert s == [s[0]] + s[1..];
      }
    }
  }

  /** `capitalize` keeps the length, upper-cases exactly the word
      characters that start a word (a word character after `-` is one) and
      leaves every other character alone; its second replacement never
      changes anything. */
  lemma CapitalizeSpec(s: string)
    ensures var r := Capitalize(s);
      |r| == |s| &&
      r == UpperWordStarts(s, false) &&
      (forall i :: 0 <= i < |s| ==> r[i] == if StartsWord(s, i) then UpperChar(s[i]) else s[i]) &&
      (forall i :: 0 < i < |s| && s[i - 1] == '-' && IsWordChar(s[i]) ==> r[i] == UpperChar(s[i]))
  {
    var w := UpperWordStarts(s, false);
    UpperWordStartsLength(s, false);
    forall i | 0 <= i < |s| ensures w[i] == if StartsWord(s, i) then UpperChar(s[i]) else s[i] {
      UpperWordStartsAt(s, false, i);
    }
    forall i | 0 < i < |w| && w[i - 1] == '-' && IsWordChar(w[i]) ensures UpperChar(w[i]) == w[i] {
      UpperWordStartsAt(s, false, i);
      UpperWordStartsAt(s, false, i - 1);
    }
    UpperAfterDashNoop(w);
  }

  /** The brand option label is the lower-cased name with every word start
      upper-cased. */
  lemma BrandLabelSpec(brandName: string)
    ensures var r, l := BrandLabel(brandName), Lower(brandName);
      |r| == |brandName| &&
      forall i :: 0 <= i < |l| ==> r[i] == if StartsWord(l, i) then UpperChar(l[i]) else l[i]
  {
    CapitalizeSpec(Lower(brandName));
  }

  /** The label of a course option: names longer than 40 characters are cut
      to their first 40 followed by `...`. */
  function CourseLabel(name: string): (shown: string)
    ensures |name| <= 40 ==> shown == name
    ensures |name| > 40 ==> |shown| == 43 && shown[..40] == name[..40] && shown[40..] == "..."
  {
    if |name| > 40 then name[..40] + "..." else name
  }

  // ---------------------------------------------------------------------
  // The component's state

  /** `?.value || ''`: an absent form control or an empty value reads as ''. */
  function OrEmpty(value: Option<string>): (r: string)
    ensures value.Some? ==> r == value.value
    ensures value.None? ==> r == ""
  {
    if value.Some? then value.value else ""
  }

  class HomeSearchForm {
    var brandNames: seq<string>
    var selectedBrandName: string
    var selectedCourseId: string
    var courseNames: seq<Course>
    var searchResults: seq<Catalog.Listing>
    var showPopup: bool
    /** `new Date(s).getTime()`, as an integer key. */
    const dateKey: string -> int

    constructor (dateKey: string -> int)
      ensures this.dateKey == dateKey
      ensures brandNames == [] && selectedBrandName == "" && selectedCourseId == ""
      ensures courseNames == [] && searchResults == [] && !showPopup
    {
      this.dateKey := dateKey;
      brandNames, selectedBrandName, selectedCourseId := [], "", "";
      courseNames, searchResults, showPopup := [], [], false;
    }

    /** The brand-list effect: on a response, the brand names; on a failure
        nothing changes. */
    method LoadBrandNames(response: Fetch<seq<BrandRecord>>)
      modifies this`brandNames
      ensures response.Fetched? ==>
        |brandNames| == |response.data| &&
        forall i :: 0 <= i < |brandNames| ==> brandNames[i] == response.data[i].brandname
      ensures response.Failed? ==> brandNames == old(brandNames)
    {
      if response.Fetched? {
        var data := response.data;
        brandNames := seq(|data|, i requires 0 <= i < |data| => data[i].brandname);
      }
    }

    /** The labels of the brand options. */
    function BrandLabels(): (labels: seq<string>)
      reads this
      ensures |labels| == |brandNames|
      ensures forall i :: 0 <= i < |labels| ==> labels[i] == BrandLabel(brandNames[i])
    {
      var names := brandNames;
      seq(|names|, i requires 0 <= i < |names| => BrandLabel(names[i]))
    }

    /** The labels of the course options. */
    function CourseLabels(): (labels: seq<string>)
      reads this
      ensures |labels| == |courseNames|
      ensures forall i :: 0 <= i < |labels| ==> labels[i] == CourseLabel(courseNames[i].coursename)
    {
      var courses := courseNames;
      seq(|courses|, i requires 0 <= i < |courses| => CourseLabel(courses[i].coursename))
    }

    /** `handleBrandNameChange`: the new brand is selected and the chosen
        course is cleared. */
    method HandleBrandNameChange(value: string)
      modifies this`selectedBrandName, this`selectedCourseId
      ensures selectedBrandName == value && selectedCourseId == ""
    {
      selectedBrandName := value;
      selectedCourseId := "";
    }

    /** `handleCourseNameChange`: only the chosen course changes. */
    method HandleCourseNameChange(value: string)
      modifies this`selectedCourseId
      ensures selectedCourseId == value
    {
      selectedCourseId := value;
    }

    /** The course-list effect.  With no brand selected the list is emptied
        and nothing is requested; otherwise the brand's courses are
        requested (`requested`) and a response replaces the list with its
        deduplicated entries, sorted in place by start date; a failure
        leaves the list as it was. */
    method RefreshCourseNames(response: Fetch<seq<Course>>) returns (requested: Option<string>)
      modifies this`courseNames
      ensures selectedBrandName == "" ==> requested == None && courseNames == []
      ensures selectedBrandName != "" ==> requested == Some(selectedBrandName)
      ensures selectedBrandName != "" && response.Fetched? ==>
        courseNames == CourseList(response.data, dateKey)
      ensures selectedBrandName != "" && response.Failed? ==> courseNames == old(courseNames)
    {
      if selectedBrandName != "" {
        requested := Some(selectedBrandName);
        if response.Fetched? {
          var uniqueCourses := UniqueCourses(response.data);
          var sorted := new Course[|uniqueCourses|](i requires 0 <= i < |uniqueCourses| => uniqueCourses[i]);
          assert sorted[..] == uniqueCourses;
          SortInPlace(sorted, StartKey(dateKey));
          courseNames := sorted[..];
        }
      } else {
        requested := None;
        courseNames := [];
      }
    }

    /** The search parameters `handleSubmit` assembles from the selections
        and the start-date and region controls. */
    function FormData(startDateInput: Option<string>, regionInput: Option<string>): (q: Catalog.SearchQuery)
      reads this
      ensures q.brandname == selectedBrandName && q.courseId == selectedCourseId
      ensures q.startDate == OrEmpty(startDateInput) && q.region == OrEmpty(regionInput)
    {
      Catalog.SearchQuery(selectedBrandName, selectedCourseId, OrEmpty(startDateInput), OrEmpty(regionInput))
    }

    /** `handleSubmit`: the query is sent; an empty result shows the popup,
        a non-empty one hides it and navigates to the result page with the
        same query (`navigation`); a failure shows the popup. */
    method HandleSubmit(startDateInput: Option<string>, regionInput: Option<string>,
                        response: Fetch<seq<Catalog.Listing>>)
      returns (query: Catalog.SearchQuery, navigation: Option<Catalog.SearchQuery>)
      modifies this`searchResults, this`showPopup
      ensures query == FormData(startDateInput, regionInput)
      ensures response.Fetched? ==> searchResults == response.data
      ensures response.Fetched? && response.data == [] ==> showPopup && navigation == None
      ensures response.Fetched? && response.data != [] ==> !showPopup && navigation == Some(query)
      ensures response.Failed? ==> showPopup && navigation == None && searchResults == old(searchResults)
    {
      query := FormData(startDateInput, regionInput);
      navigation := None;
      match response {
        case Fetched(data) =>
          searchResults := data;
          if |data| == 0 {
            showPopup := true;
          } else {
            showPopup := false;
            navigation := Some(query);
          }
        case Failed =>
          showPopup := true;
      }
    }

    /** The popup's Close button. */
    method ClosePopup()
      modifies this`showPopup
      ensures !showPopup
    {
      showPopup := false;
    }
  }
}

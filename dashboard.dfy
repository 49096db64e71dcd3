/** The student catalogue (Dashboard.tsx): the category list built from the
    courses, the three catalogue filters — a case-insensitive search of
    title and description, an exact category and a price bucket — and the
    action that clears them. The catalogue itself is a constant list in the
    page; here it is a parameter. */
module Dashboard {
  import opened Common
  import opened Text

  datatype CatalogueCourse = CatalogueCourse(
    id: int,
    title: string,
    description: string,
    price: int,
    category: string)

  function Categories(courses: seq<CatalogueCourse>): (r: seq<string>)
    ensures |r| == |courses|
    ensures forall i :: 0 <= i < |courses| ==> r[i] == courses[i].category
  {
    seq(|courses|, i requires 0 <= i < |courses| => courses[i].category)
  }

  /** `[...new Set(xs)]`: each value once, at the place of its first
      occurrence. */
  function Dedup(xs: seq<string>): (r: seq<string>)
    ensures Distinct(r)
    ensures forall x :: x in r <==> x in xs
    ensures |r| <= |xs|
    ensures IsSubsequence(r, xs)
    decreases |xs|
  {
    if xs == [] then []
    else
      var init := xs[..|xs| - 1];
      var last := xs[|xs| - 1];
      var d := Dedup(init);
      assert xs == init + [last];
      if last in d then
        SubsequenceExtend(d, init, last);
        d
      else
        SubsequenceAppend(d, init, last);
        d + [last]
  }

  /** A list without repeats is its own category list. */
  lemma {:induction false} DedupOfDistinct(xs: seq<string>)
    requires Distinct(xs)
    ensures Dedup(xs) == xs
    decreases |xs|
  {
    if xs != [] {
      var init := xs[..|xs| - 1];
      assert Distinct(init);
      DedupOfDistinct(init);
      assert xs[|xs| - 1] !in init;
      assert xs == init + [xs[|xs| - 1]];
    }
  }

  /** `categories`. */
  function CategoryList(courses: seq<CatalogueCourse>): seq<string> {
    Dedup(Categories(courses))
  }

  /** Every course's category is listed, exactly once, and nothing else is. */
  lemma CategoryListIsExact(courses: seq<CatalogueCourse>)
    ensures Distinct(CategoryList(courses))
    ensures forall c :: c in CategoryList(courses) <==> exists i :: 0 <= i < |courses| && courses[i].category == c
  {
    var cats := Categories(courses);
    forall c | c in cats ensures exists i :: 0 <= i < |courses| && courses[i].category == c {
      var i :| 0 <= i < |cats| && cats[i] == c;
      assert courses[i].category == c;
    }
  }

  /** The title or the description contains the search term, ignoring ASCII case. */
  predicate MatchesSearch(course: CatalogueCourse, searchTerm: string) {
    || Includes(ToLower(course.title), ToLower(searchTerm))
    || Includes(ToLower(course.description), ToLower(searchTerm))
  }

  /** No category selected, or exactly the selected one. */
  predicate MatchesCategory(course: CatalogueCourse, selectedCategory: string) {
    selectedCategory == "" || course.category == selectedCategory
  }

  /** The three price buckets. */
  predicate Under2000(price: int) { price < 2000 }
  predicate From2000To3000(price: int) { 2000 <= price <= 3000 }
  predicate Over3000(price: int) { price > 3000 }

  /** No price selected, or the price falls in the bucket of the selected key. */
  predicate MatchesPrice(course: CatalogueCourse, selectedPrice: string) {
    || selectedPrice == ""
    || (selectedPrice == "under-2000" && Under2000(course.price))
    || (selectedPrice == "2000-3000" && From2000To3000(course.price))
    || (selectedPrice == "over-3000" && Over3000(course.price))
  }

  predicate Matches(course: CatalogueCourse, searchTerm: string, selectedCategory: string, selectedPrice: string) {
    MatchesSearch(course, searchTerm) && MatchesCategory(course, selectedCategory) && MatchesPrice(course, selectedPrice)
  }

  /** `filteredCourses`. */
  function FilteredCourses(courses: seq<CatalogueCourse>, searchTerm: string, selectedCategory: string, selectedPrice: string): (r: seq<CatalogueCourse>)
    ensures |r| <= |courses|
    ensures forall c :: c in r <==> c in courses && Matches(c, searchTerm, selectedCategory, selectedPrice)
  {
    Filter(courses, (c: CatalogueCourse) => Matches(c, searchTerm, selectedCategory, selectedPrice))
  }

  /** The filtered list keeps the catalogue's order and only drops courses. */
  lemma FilteredIsSubsequence(courses: seq<CatalogueCourse>, searchTerm: string, selectedCategory: string, selectedPrice: string)
    ensures IsSubsequence(FilteredCourses(courses, searchTerm, selectedCategory, selectedPrice), courses)
  {
    FilterIsSubsequence(courses, (c: CatalogueCourse) => Matches(c, searchTerm, selectedCategory, selectedPrice));
  }

  /** Every price falls in exactly one bucket. */
  lemma BucketsPartitionPrices(price: int)
    ensures Under2000(price) || From2000To3000(price) || Over3000(price)
    ensures !(Under2000(price) && From2000To3000(price))
    ensures !(Under2000(price) && Over3000(price))
    ensures !(From2000To3000(price) && Over3000(price))
  {
  }

  /** A price key other than the three bucket keys matches no course. */
  lemma UnknownPriceKeyMatchesNothing(course: CatalogueCourse, selectedPrice: string)
    requires selectedPrice !in {"", "under-2000", "2000-3000", "over-3000"}
    ensures !MatchesPrice(course, selectedPrice)
  {
  }

  /** The search term is found in the title or description, case aside,
      when it is a substring of either. */
  lemma SearchFindsSubstring(course: CatalogueCourse, part: string)
    requires Includes(course.title, part)
    ensures MatchesSearch(course, part)
  {
    var i: nat :| i <= |course.title| && OccursAt(course.title, part, i);
    var lt, lp := ToLower(course.title), ToLower(part);
    assert lt[i..i + |part|] == lp by {
      forall k | 0 <= k < |part| ensures lt[i + k] == lp[k] {
        assert course.title[i + k] == part[k];
      }
    }
    assert OccursAt(lt, lp, i);
  }

  /** With all three filters empty every course matches. */
  lemma EmptyFiltersMatchAll(courses: seq<CatalogueCourse>)
    ensures FilteredCourses(courses, "", "", "") == courses
  {
    forall c | c in courses ensures Matches(c, "", "", "") {
      IncludesEmpty(ToLower(c.title));
    }
    FilterAll(courses, (c: CatalogueCourse) => Matches(c, "", "", ""));
  }

  class Dashboard {
    var searchTerm: string
    var selectedCategory: string
    var selectedPrice: string

    constructor ()
      ensures searchTerm == "" && selectedCategory == "" && selectedPrice == ""
    {
      searchTerm := "";
      selectedCategory := "";
      selectedPrice := "";
    }

    /** The courses shown under the current filters. */
    function Visible(courses: seq<CatalogueCourse>): seq<CatalogueCourse>
      reads this
    {
      FilteredCourses(courses, searchTerm, selectedCategory, selectedPrice)
    }

    /** `clearFilters()`: afterwards the whole catalogue is shown. */
    method ClearFilters()
      modifies this
      ensures searchTerm == "" && selectedCategory == "" && selectedPrice == ""
      ensures forall courses :: Visible(courses) == courses
    {
      searchTerm := "";
      selectedCategory := "";
      selectedPrice := "";
      forall courses: seq<CatalogueCourse> ensures Visible(courses) == courses {
        EmptyFiltersMatchAll(courses);
      }
    }
  }
}

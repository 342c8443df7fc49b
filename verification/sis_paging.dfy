/** The request side of sis2calgroups/sis.py: `get_items`, which walks a
    paginated SIS endpoint, and its callers `get_term_id`,
    `normalize_term_id`, `get_lecture_section_ids` and `get_enrollments`.
    The HTTP GET is an oracle from the query to the page it yields. */
module SisPaging {
  import opened Wrappers
  import opened Strings
  import opened Sis

  /** What one GET yields, as far as `get_items` looks at it: a 404, an
      envelope without 'response', a response without the item key, or the
      items of the page. */
  datatype Page<T> = NotFound | NoResponse | NoItemKey | Items(items: seq<T>)

  /** A page that ends the walk. An `Items([])` page is not terminal. */
  predicate Terminal<T>(p: Page<T>) {
    !p.Items?
  }

  /** The part of the request parameters that `get_items` reads and
      mutates: 'page-number', present exactly on paginated queries. */
  datatype Query = Query(pageNumber: Option<int>)

  /** The items gathered, the parameters as the caller sees them afterwards
      (the page number is advanced in place), and the number of GETs made. */
  datatype Fetched<T> = Fetched(items: seq<T>, query: Query, requests: nat)

  /** Precondition of a paginated walk from `query`: some page at or after
      the start, here `last`, is terminal. */
  ghost predicate WalkEnds<T>(fetch: Query -> Page<T>, query: Query, last: int) {
    query.pageNumber.Some? ==>
      query.pageNumber.value <= last && Terminal(fetch(Query(Some(last))))
  }

  /** `get_items`. An unpaginated query makes one GET. A paginated one
      keeps fetching the next page until a terminal page, concatenating
      the pages' items; the page number is left on that terminal page. */
  function GetItems<T>(fetch: Query -> Page<T>, query: Query, ghost last: int): (r: Fetched<T>)
    requires WalkEnds(fetch, query, last)
    ensures query.pageNumber.None? ==>
      r.requests == 1 && r.query == query
      && r.items == (if fetch(query).Items? then fetch(query).items else [])
    ensures Terminal(fetch(query)) ==> r == Fetched([], query, 1)
    ensures query.pageNumber.Some? ==>
      && r.query.pageNumber.Some?
      && query.pageNumber.value <= r.query.pageNumber.value <= last
      && Terminal(fetch(r.query))
      && r.requests == r.query.pageNumber.value - query.pageNumber.value + 1
    decreases if query.pageNumber.Some? then last - query.pageNumber.value else 0
  {
    match fetch(query)
    case Items(items) =>
      if query.pageNumber.None? then Fetched(items, query, 1)
      else
        var rest := GetItems(fetch, Query(Some(query.pageNumber.value + 1)), last);
        Fetched(items + rest.items, rest.query, rest.requests + 1)
    case _ => Fetched([], query, 1)
  }

  /** The items of `count` consecutive pages starting at page `n`, in
      page order: the reference against which the walk is stated. */
  function PagesFrom<T>(fetch: Query -> Page<T>, n: int, count: nat): seq<T>
    decreases count
  {
    if count == 0 then []
    else
      var p := fetch(Query(Some(n)));
      (if p.Items? then p.items else []) + PagesFrom(fetch, n + 1, count - 1)
  }

  /** Given `count` item pages from page `n` followed by a terminal page,
      the walk returns their concatenation in order, makes `count + 1`
      GETs and leaves the page number on the terminal page. */
  lemma {:induction false} GetItemsPages<T>(fetch: Query -> Page<T>, n: int, count: nat, last: int)
    requires forall k :: n <= k < n + count ==> fetch(Query(Some(k))).Items?
    requires Terminal(fetch(Query(Some(n + count))))
    requires WalkEnds(fetch, Query(Some(n)), last)
    ensures GetItems(fetch, Query(Some(n)), last)
      == Fetched(PagesFrom(fetch, n, count), Query(Some(n + count)), count + 1)
    decreases count
  {
    if count > 0 {
      assert fetch(Query(Some(n))).Items?;
      GetItemsPages(fetch, n + 1, count - 1, last);
    }
  }

  // ---------------------------------------------------------------------
  // Terms

  /** An entry of the terms endpoint. */
  datatype Term = Term(id: string)

  /** `get_term_id` raises (indexing an empty list) when no term comes back. */
  datatype SisError = NoTerms

  /** `get_term_id`: one unpaginated GET filtered by temporal position;
      the id of the first term returned. */
  function GetTermId(position: Option<string>, terms: Option<string> -> Page<Term>): (r: Result<string, SisError>)
    ensures r.Success? <==> terms(position).Items? && |terms(position).items| > 0
    ensures r.Success? ==> r.value == terms(position).items[0].id
  {
    var fetched := GetItems((q: Query) => terms(position), Query(None), 0);
    if |fetched.items| == 0 then Failure(NoTerms) else Success(fetched.items[0].id)
  }

  /** Whether `normalize_term_id` asks the SIS: the id is absent or all
      letters (a temporal position such as "Current"). */
  predicate NeedsTermLookup(termId: Option<string>) {
    termId.None? || IsAlphas(termId.value)
  }

  /** `normalize_term_id`: a numeric id passes through unchanged, a
      position or an absent id is resolved by a term lookup. */
  function NormalizeTermId(termId: Option<string>, terms: Option<string> -> Page<Term>): (r: Result<string, SisError>)
    ensures !NeedsTermLookup(termId) ==> r == Success(termId.value)
    ensures NeedsTermLookup(termId) ==>
      (r.Success? <==> terms(termId).Items? && |terms(termId).items| > 0)
    ensures NeedsTermLookup(termId) && r.Success? ==> r.value == terms(termId).items[0].id
  {
    if NeedsTermLookup(termId) then GetTermId(termId, terms) else Success(termId.value)
  }

  // ---------------------------------------------------------------------
  // Lecture sections and enrollments

  /** `get_lecture_section_ids`: the lecture codes among the course's
      section descriptors, fetched from page 1. */
  function GetLectureSectionIds(descriptors: Query -> Page<Descriptor>, ghost last: int): (codes: seq<string>)
    requires WalkEnds(descriptors, Query(Some(1)), last)
    ensures forall c :: c in codes ==>
      exists d :: d in GetItems(descriptors, Query(Some(1)), last).items
        && d.code == c && HasSectionWord(d.description, SectionCodes)
    ensures forall d :: d in GetItems(descriptors, Query(Some(1)), last).items ==>
      HasSectionWord(d.description, SectionCodes) ==> d.code in codes
  {
    var sections := GetItems(descriptors, Query(Some(1)), last).items;
    var codes := FilterLectures(sections, SectionCodes);
    assert forall c :: c in codes ==>
      exists i :: 0 <= i < |sections| && sections[i].code == c
        && HasSectionWord(sections[i].description, SectionCodes);
    codes
  }

  /** Every lecture's roster walk from any page up to `last` ends. */
  ghost predicate RostersEnd(codes: seq<string>, rosters: string -> Query -> Page<Enrollment>, last: int) {
    forall c :: c in codes ==> Terminal(rosters(c)(Query(Some(last))))
  }

  /** The loop of `get_enrollments`, with one parameter map shared by all
      lectures: each lecture's walk starts where the previous one left the
      page number. */
  function EnrollmentsFrom(codes: seq<string>, rosters: string -> Query -> Page<Enrollment>,
                           query: Query, ghost last: int): (r: Fetched<Enrollment>)
    requires query.pageNumber.Some? && query.pageNumber.value <= last
    requires RostersEnd(codes, rosters, last)
    ensures r.query.pageNumber.Some? && query.pageNumber.value <= r.query.pageNumber.value <= last
    ensures r.requests >= |codes|
    ensures |codes| > 0 ==> Terminal(rosters(codes[|codes| - 1])(r.query))
    decreases |codes|
  {
    if |codes| == 0 then Fetched([], query, 0)
    else
      var first := GetItems(rosters(codes[0]), query, last);
      var rest := EnrollmentsFrom(codes[1..], rosters, first.query, last);
      Fetched(first.items + rest.items, rest.query, first.requests + rest.requests)
  }

  /** `get_enrollments` as written: the shared parameters start at page 1. */
  function GetEnrollments(codes: seq<string>, rosters: string -> Query -> Page<Enrollment>, ghost last: int): (r: seq<Enrollment>)
    requires 1 <= last && RostersEnd(codes, rosters, last)
    ensures |codes| == 0 ==> r == []
    ensures |codes| == 1 ==> r == Roster(codes[0], rosters, last)
  {
    assert |codes| == 1 ==> EnrollmentsFrom(codes, rosters, Query(Some(1)), last).items == Roster(codes[0], rosters, last) by {
      if |codes| == 1 {
        assert codes[1..] == [];
      }
    }
    EnrollmentsFrom(codes, rosters, Query(Some(1)), last).items
  }

  /** One lecture's complete roster: its walk from page 1. */
  function Roster(code: string, rosters: string -> Query -> Page<Enrollment>, ghost last: int): seq<Enrollment>
    requires 1 <= last && Terminal(rosters(code)(Query(Some(last))))
  {
    GetItems(rosters(code), Query(Some(1)), last).items
  }

  /** `get_enrollments` as evidently intended: every lecture's roster is
      walked from page 1. */
  function GetEnrollmentsFresh(codes: seq<string>, rosters: string -> Query -> Page<Enrollment>, ghost last: int): (r: seq<Enrollment>)
    requires 1 <= last && RostersEnd(codes, rosters, last)
    ensures |codes| == 1 ==> r == Roster(codes[0], rosters, last)
    decreases |codes|
  {
    if |codes| == 0 then []
    else Roster(codes[0], rosters, last) + GetEnrollmentsFresh(codes[1..], rosters, last)
  }

  /** With fresh parameters per lecture, the enrollments of a list of
      lectures are the rosters of its parts, in order: no lecture's walk
      depends on the lectures before it. */
  lemma {:induction false} GetEnrollmentsFreshConcat(a: seq<string>, b: seq<string>,
                                                     rosters: string -> Query -> Page<Enrollment>, last: int)
    requires 1 <= last && RostersEnd(a + b, rosters, last)
    ensures RostersEnd(a, rosters, last) && RostersEnd(b, rosters, last)
    ensures GetEnrollmentsFresh(a + b, rosters, last)
      == GetEnrollmentsFresh(a, rosters, last) + GetEnrollmentsFresh(b, rosters, last)
    decreases |a|
  {
    if |a| == 0 {
      assert a + b == b;
    } else {
      assert (a + b)[1..] == a[1..] + b;
      GetEnrollmentsFreshConcat(a[1..], b, rosters, last);
    }
  }

  /** A one-page lecture's walk from page 1 returns its one enrollment and
      stops on page 2. */
  lemma OnePageWalk(fetch: Query -> Page<Enrollment>, e: Enrollment)
    requires fetch(Query(Some(1))) == Items([e])
    requires fetch(Query(Some(2))) == NotFound
    ensures GetItems(fetch, Query(Some(1)), 2) == Fetched([e], Query(Some(2)), 2)
  {
    GetItemsPages(fetch, 1, 1, 2);
    assert PagesFrom(fetch, 1, 1) == [e] + PagesFrom(fetch, 2, 0);
  }

  /** Lectures A and B each have one page of enrollments, holding `first`
      and `second`; page 2 is a 404 for both. */
  ghost predicate TwoOnePageLectures(rosters: string -> Query -> Page<Enrollment>, first: Enrollment, second: Enrollment) {
    && rosters("A")(Query(Some(1))) == Items([first]) && rosters("A")(Query(Some(2))) == NotFound
    && rosters("B")(Query(Some(1))) == Items([second]) && rosters("B")(Query(Some(2))) == NotFound
  }

  /** As written, B's walk starts on page 2, where A's walk stopped, so
      B's only page is skipped and its student is lost. */
  lemma SharedPageNumberLosesSecondLecture(rosters: string -> Query -> Page<Enrollment>, first: Enrollment, second: Enrollment)
    requires TwoOnePageLectures(rosters, first, second)
    ensures RostersEnd(["A", "B"], rosters, 2)
    ensures GetEnrollments(["A", "B"], rosters, 2) == [first]
  {
    var codes := ["A", "B"];
    assert codes[1..] == ["B"] && codes[1..][1..] == [];
    OnePageWalk(rosters("A"), first);
    var b := GetItems(rosters("B"), Query(Some(2)), 2);
    assert b == Fetched([], Query(Some(2)), 1);
    var rest := EnrollmentsFrom(codes[1..], rosters, Query(Some(2)), 2);
    assert rest.items == b.items + EnrollmentsFrom(codes[1..][1..], rosters, b.query, 2).items;
  }

  /** Walking each lecture from page 1 keeps both students. */
  lemma FreshPageNumberKeepsBothLectures(rosters: string -> Query -> Page<Enrollment>, first: Enrollment, second: Enrollment)
    requires TwoOnePageLectures(rosters, first, second)
    ensures RostersEnd(["A", "B"], rosters, 2)
    ensures GetEnrollmentsFresh(["A", "B"], rosters, 2) == [first, second]
  {
    var codes := ["A", "B"];
    assert codes[1..] == ["B"] && codes[1..][1..] == [];
    OnePageWalk(rosters("A"), first);
    OnePageWalk(rosters("B"), second);
    assert GetEnrollmentsFresh(codes[1..], rosters, 2) == Roster("B", rosters, 2);
  }

  /** A first lecture whose page 1 is a 404 leaves the shared page number
      at 1, so the second lecture keeps its roster. */
  lemma EmptyFirstLectureDoesNotAdvance(rosters: string -> Query -> Page<Enrollment>, second: Enrollment)
    requires rosters("A")(Query(Some(1))) == NotFound && rosters("A")(Query(Some(2))) == NotFound
    requires rosters("B")(Query(Some(1))) == Items([second]) && rosters("B")(Query(Some(2))) == NotFound
    ensures RostersEnd(["A", "B"], rosters, 2)
    ensures GetEnrollments(["A", "B"], rosters, 2) == [second]
  {
    var codes := ["A", "B"];
    assert codes[1..] == ["B"] && codes[1..][1..] == [];
    var a := GetItems(rosters("A"), Query(Some(1)), 2);
    assert a == Fetched([], Query(Some(1)), 1);
    OnePageWalk(rosters("B"), second);
    var rest := EnrollmentsFrom(codes[1..], rosters, Query(Some(1)), 2);
    assert rest.items == [second] + EnrollmentsFrom(codes[1..][1..], rosters, Query(Some(2)), 2).items;
  }
}

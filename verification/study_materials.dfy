/** The study-material repository: the uploads of the "Study" category
    followed by two standing resources, narrowed by programme, year,
    semester and a search text, and ordered by title or by publication
    date. */
module StudyMaterials {
  import opened Wrappers
  import opened Strings
  import opened Lists
  import opened Types
  import opened Constants

  // ---------------------------------------------------------------------
  // The content
  // ---------------------------------------------------------------------

  /** The two resources shown whatever has been uploaded. */
  function StaticResources(): seq<UploadedContent>
  {
    [UploadedContent("static-1", "Study", "All Programmes", "All Years", "All Semesters",
                     "NCTE Regulation & Ordinances 2024", "Official regulatory guidelines for Teacher Education.",
                     "01-01-2024", "NCTE_Ordinance.pdf", "1.2 MB", ""),
     UploadedContent("static-2", "Study", "All Programmes", "All Years", "All Semesters",
                     "Standard Lesson Plan Format", "Universal template for classroom teaching sessions.",
                     "05-01-2024", "Lesson_Plan_Format.pdf", "450 KB", "")]
  }

  predicate IsStudy(c: UploadedContent)
  {
    c.category == "Study"
  }

  /** `allContent`: the study uploads in store order, then the static pair. */
  function AllContent(uploaded: seq<UploadedContent>): seq<UploadedContent>
  {
    Filter(uploaded, IsStudy) + StaticResources()
  }

  /** Everything listed is study material: exactly the study uploads, in
      order, and then the two static resources. */
  lemma AllContentShape(uploaded: seq<UploadedContent>)
    ensures |AllContent(uploaded)| == Count(uploaded, IsStudy) + 2
    ensures AllContent(uploaded)[|AllContent(uploaded)| - 2..] == StaticResources()
    ensures forall c :: c in AllContent(uploaded) ==> IsStudy(c)
    ensures forall c :: c in uploaded && IsStudy(c) ==> c in AllContent(uploaded)
    ensures IsSubseq(AllContent(uploaded)[..Count(uploaded, IsStudy)], uploaded)
  {
    var f := Filter(uploaded, IsStudy);
    var a := AllContent(uploaded);
    FilterMembers(uploaded, IsStudy);
    FilterOrdered(uploaded, IsStudy);
    assert a[..|f|] == f;
    assert a[|a| - 2..] == StaticResources();
    forall c | c in a ensures IsStudy(c) {
      if c !in f {
        assert c in StaticResources();
      }
    }
  }

  // ---------------------------------------------------------------------
  // The filter
  // ---------------------------------------------------------------------

  datatype SortKey = ByDate | ByTitle

  /** The filter fields of the page. */
  datatype Criteria = Criteria(programme: string, year: string, semester: string, query: string, sortBy: SortKey)

  function InitialCriteria(): Criteria
  {
    Criteria("", "", "", "", ByDate)
  }

  /** One criterion passes when it is unset, matches exactly, or the item
      carries the criterion's wildcard. */
  predicate Wild(value: string, criterion: string, wildcard: string)
  {
    criterion == "" || value == criterion || value == wildcard
  }

  /** The semester criterion is hidden for the annual D.El.Ed. programme. */
  predicate SemesterHidden(programme: string)
  {
    programme == "D.El.Ed."
  }

  /** Case-insensitive substring search on title or description. */
  predicate SearchMatch(c: UploadedContent, query: string)
  {
    query == "" || Contains(Lower(c.title), Lower(query)) || Contains(Lower(c.description), Lower(query))
  }

  predicate Matches(c: UploadedContent, k: Criteria)
  {
    Wild(c.programme, k.programme, "All Programmes") &&
    Wild(c.year, k.year, "All Years") &&
    (SemesterHidden(k.programme) || Wild(c.semester, k.semester, "All Semesters")) &&
    SearchMatch(c, k.query)
  }

  function Filtered(all: seq<UploadedContent>, k: Criteria): seq<UploadedContent>
  {
    Filter(all, (c: UploadedContent) => Matches(c, k))
  }

  /** The filter keeps items of the content, in order, and exactly those
      that match. */
  lemma FilteredSubset(all: seq<UploadedContent>, k: Criteria)
    ensures IsSubseq(Filtered(all, k), all)
    ensures forall c :: c in Filtered(all, k) <==> c in all && Matches(c, k)
  {
    FilterOrdered(all, (c: UploadedContent) => Matches(c, k));
    FilterMembers(all, (c: UploadedContent) => Matches(c, k));
  }

  /** With no criterion set everything is listed. */
  lemma NoCriteriaKeepsAll(all: seq<UploadedContent>, sortBy: SortKey)
    ensures Filtered(all, Criteria("", "", "", "", sortBy)) == all
  {
    FilterKeepsAll(all, (c: UploadedContent) => Matches(c, Criteria("", "", "", "", sortBy)));
  }

  /** An item carrying all three wildcards passes every programme, year and
      semester choice; only the search can drop it. */
  lemma WildcardItemsPass(c: UploadedContent, k: Criteria)
    requires c.programme == "All Programmes" && c.year == "All Years" && c.semester == "All Semesters"
    ensures Matches(c, k) <==> SearchMatch(c, k.query)
  {
  }

  /** For D.El.Ed. the semester field has no effect. */
  lemma DElEdIgnoresSemester(c: UploadedContent, k: Criteria, semester: string)
    requires k.programme == "D.El.Ed."
    ensures Matches(c, k) <==> Matches(c, k.(semester := semester))
  {
  }

  /** For other programmes a set semester keeps only that semester and the
      wildcard. */
  lemma SemesterNarrows(c: UploadedContent, k: Criteria)
    requires k.programme != "D.El.Ed." && k.semester != ""
    requires Matches(c, k)
    ensures c.semester == k.semester || c.semester == "All Semesters"
  {
  }

  lemma {:induction false} LowerIdempotent(s: string)
    ensures Lower(Lower(s)) == Lower(s)
  {
    assert forall i :: 0 <= i < |s| ==> LowerChar(LowerChar(s[i])) == LowerChar(s[i]);
  }

  /** The search ignores letter case in the query. */
  lemma SearchIgnoresCase(c: UploadedContent, query: string)
    ensures SearchMatch(c, query) <==> SearchMatch(c, Lower(query))
  {
    LowerIdempotent(query);
    assert query == "" <==> Lower(query) == "";
  }

  /** A query found verbatim in the title always matches. */
  lemma TitleHitMatches(c: UploadedContent, query: string, i: nat)
    requires i + |query| <= |c.title| && c.title[i..i + |query|] == query
    ensures SearchMatch(c, query)
  {
    var t, q := Lower(c.title), Lower(query);
    assert t[i..i + |q|] == q;
    assert OccursAt(t, q, i);
    ContainsAt(t, q);
  }

  // ---------------------------------------------------------------------
  // Order
  // ---------------------------------------------------------------------

  /** Code-point lexicographic order, standing in for `localeCompare`. */
  predicate StringLe(a: string, b: string)
    decreases |a|
  {
    a == [] || (b != [] && (a[0] < b[0] || (a[0] == b[0] && StringLe(a[1..], b[1..]))))
  }

  lemma {:induction false} StringLeTotal(a: string, b: string)
    ensures StringLe(a, b) || StringLe(b, a)
    decreases |a|
  {
    if a != [] && b != [] && a[0] == b[0] {
      StringLeTotal(a[1..], b[1..]);
    }
  }

  /** `parseDate` of a `dd-mm-yyyy` stamp as one comparable number;
      `None` when a part has no digits (the `NaN` time). */
  function DateKey(d: string): Option<int>
  {
    PartsKey(Split(d, '-'))
  }

  /** Day, month and year parts; a missing part is `NaN` too. */
  function PartsKey(p: seq<string>): Option<int>
  {
    if |p| < 3 then None else Combine(ParseInt(p[0]), ParseInt(p[1]), ParseInt(p[2]))
  }

  function Combine(day: Option<int>, month: Option<int>, year: Option<int>): Option<int>
  {
    if day.Some? && month.Some? && year.Some? then Some(year.value * 10000 + month.value * 100 + day.value)
    else None
  }

  lemma PartsKeyOf(d: string, m: string, y: string, day: int, month: int, year: int)
    requires ParseInt(d) == Some(day) && ParseInt(m) == Some(month) && ParseInt(y) == Some(year)
    ensures PartsKey([d, m, y]) == Some(year * 10000 + month * 100 + day)
  {
    var p := [d, m, y];
    assert p[0] == d && p[1] == m && p[2] == y;
    assert PartsKey(p) == Combine(ParseInt(d), ParseInt(m), ParseInt(y));
    CombineSome(day, month, year);
  }

  lemma CombineSome(day: int, month: int, year: int)
    ensures Combine(Some(day), Some(month), Some(year)) == Some(year * 10000 + month * 100 + day)
  {
  }

  /** `a` may stand before `b` under the chosen order: titles ascending, or
      dates descending; a `NaN` comparison counts as equal. */
  predicate Before(k: SortKey, a: UploadedContent, b: UploadedContent)
  {
    match k
    case ByTitle => StringLe(a.title, b.title)
    case ByDate =>
      match (DateKey(a.datePublished), DateKey(b.datePublished))
      case (Some(x), Some(y)) => x >= y
      case _ => true
  }

  lemma BeforeTotal(k: SortKey)
    ensures Total((a: UploadedContent, b: UploadedContent) => Before(k, a, b))
  {
    forall a: UploadedContent, b: UploadedContent ensures Before(k, a, b) || Before(k, b, a) {
      if k == ByTitle {
        StringLeTotal(a.title, b.title);
      }
    }
  }

  /** `filteredAndSortedContent`: the matching items, stably sorted. */
  function Listing(all: seq<UploadedContent>, k: Criteria): seq<UploadedContent>
  {
    InsertionSort(Filtered(all, k), (a: UploadedContent, b: UploadedContent) => Before(k.sortBy, a, b))
  }

  /** The listing holds exactly the matching items of the content, each
      as often as the content does, in the chosen order. */
  lemma ListingLaws(all: seq<UploadedContent>, k: Criteria)
    ensures multiset(Listing(all, k)) == multiset(Filtered(all, k))
    ensures Sorted(Listing(all, k), (a: UploadedContent, b: UploadedContent) => Before(k.sortBy, a, b))
    ensures forall c :: c in Listing(all, k) <==> c in all && Matches(c, k)
  {
    var le := (a: UploadedContent, b: UploadedContent) => Before(k.sortBy, a, b);
    BeforeTotal(k.sortBy);
    InsertionSortLaws(Filtered(all, k), le);
    FilteredSubset(all, k);
    forall c ensures c in Listing(all, k) <==> c in Filtered(all, k) {
      assert c in Listing(all, k) <==> c in multiset(Listing(all, k));
      assert c in Filtered(all, k) <==> c in multiset(Filtered(all, k));
    }
  }

  lemma {:induction false} StringLeTransitive(a: string, b: string, c: string)
    requires StringLe(a, b) && StringLe(b, c)
    ensures StringLe(a, c)
    decreases |a|
  {
    if a != [] && a[0] == b[0] && b[0] == c[0] {
      StringLeTransitive(a[1..], b[1..], c[1..]);
    }
  }

  lemma TitleOrderTransitive()
    ensures Transitive((a: UploadedContent, b: UploadedContent) => Before(ByTitle, a, b))
  {
    forall a: UploadedContent, b: UploadedContent, c: UploadedContent
      | Before(ByTitle, a, b) && Before(ByTitle, b, c)
      ensures Before(ByTitle, a, c)
    {
      StringLeTransitive(a.title, b.title, c.title);
    }
  }

  /** Sorted by title, items that tie keep their order in the content. */
  lemma ListingStableByTitle(all: seq<UploadedContent>, k: Criteria, c: UploadedContent)
    requires k.sortBy == ByTitle
    ensures var le := (a: UploadedContent, b: UploadedContent) => Before(k.sortBy, a, b);
      Filter(Listing(all, k), TieWith(le, c)) == Filter(Filtered(all, k), TieWith(le, c))
  {
    TitleOrderTransitive();
    var le := (a: UploadedContent, b: UploadedContent) => Before(k.sortBy, a, b);
    assert Transitive(le);
    InsertionSortStable(Filtered(all, k), le, c);
  }

  /** A `dd-mm-yyyy` stamp whose parts parse keys on year, then month,
      then day. */
  lemma DateKeyOfStamp(day: string, month: string, year: string, d: int, m: int, y: int)
    requires '-' !in day && '-' !in month && '-' !in year
    requires ParseInt(day) == Some(d) && ParseInt(month) == Some(m) && ParseInt(year) == Some(y)
    ensures DateKey(day + "-" + month + "-" + year) == Some(y * 10000 + m * 100 + d)
  {
    SplitStamp(day, month, year);
    PartsKeyOf(day, month, year, d, m, y);
  }

  lemma SplitStamp(day: string, month: string, year: string)
    requires '-' !in day && '-' !in month && '-' !in year
    ensures Split(day + "-" + month + "-" + year, '-') == [day, month, year]
  {
    assert day + "-" + month + "-" + year == day + ['-'] + (month + ['-'] + year);
    SplitFirst(day, month + ['-'] + year, '-');
    SplitFirst(month, year, '-');
    SplitNone(year, '-');
  }

  /** A stamp part without a digit makes the date `NaN`. */
  lemma DateKeyNaN(day: string, month: string, year: string)
    requires '-' !in day && '-' !in month && '-' !in year
    requires ParseInt(day).None? || ParseInt(month).None? || ParseInt(year).None?
    ensures DateKey(day + "-" + month + "-" + year).None?
  {
    SplitStamp(day, month, year);
    PartsKeyNaN(day, month, year);
  }

  lemma PartsKeyNaN(d: string, m: string, y: string)
    requires ParseInt(d).None? || ParseInt(m).None? || ParseInt(y).None?
    ensures PartsKey([d, m, y]).None?
  {
  }

  /** A stamp with fewer than three parts is `NaN`. */
  lemma DateKeyShort(d: string)
    requires |Split(d, '-')| < 3
    ensures DateKey(d).None?
  {
  }

  /** A stamp without '-', such as the `dd/mm/yyyy` text of
      `toLocaleDateString('en-GB')` that every upload carries, is `NaN`. */
  lemma DateKeyNoDash(d: string)
    requires '-' !in d
    ensures DateKey(d).None?
  {
    SplitNone(d, '-');
  }

  /** Such an item ties with every item under "Newest" in both
      directions, so the date order never moves it. */
  lemma UndatedTies(a: UploadedContent, b: UploadedContent)
    requires '-' !in a.datePublished
    ensures Before(ByDate, a, b) && Before(ByDate, b, a)
  {
    DateKeyNoDash(a.datePublished);
  }

  // ---------------------------------------------------------------------
  // The selects
  // ---------------------------------------------------------------------

  /** The years offered: none until a programme is chosen. */
  function AvailableYears(programme: string): seq<string>
  {
    if programme == "" then [] else YearsForProgramme(programme)
  }

  /** The semesters offered: none until programme and year are chosen. */
  function AvailableSemesters(programme: string, year: string): seq<string>
  {
    if programme != "" && year != "" then SemestersForProgramme(programme) else []
  }

  lemma AvailableLaws(programme: string, year: string)
    ensures AvailableYears(programme) == [] <==> programme == ""
    ensures AvailableSemesters(programme, year) == [] <==> programme == "" || year == ""
    ensures AvailableSemesters(programme, year) != [] ==> AvailableYears(programme) != []
  {
  }

  /** A new programme clears year and semester. */
  function SelectProgramme(k: Criteria, p: string): Criteria
  {
    k.(programme := p, year := "", semester := "")
  }

  /** A new year clears the semester. */
  function SelectYear(k: Criteria, y: string): Criteria
  {
    k.(year := y, semester := "")
  }

  /** After choosing a programme only the programme and the search narrow
      the list; after choosing a year the semester no longer does. */
  lemma SelectWidens(c: UploadedContent, k: Criteria, p: string, y: string)
    ensures Matches(c, SelectProgramme(k, p)) <==>
      Wild(c.programme, p, "All Programmes") && SearchMatch(c, k.query)
    ensures Matches(c, SelectYear(k, y)) <==>
      Wild(c.programme, k.programme, "All Programmes") && Wild(c.year, y, "All Years") && SearchMatch(c, k.query)
    ensures SelectProgramme(SelectProgramme(k, p), p) == SelectProgramme(k, p)
  {
  }
}

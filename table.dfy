/** The list view of the records: a case-insensitive search over every
    field, an optional single-key sort, and pages of ten records, together
    with the view state that the header clicks and the page buttons change. */
module RecordTable {
  import opened Wrappers
  import opened Strings
  import opened Seqs
  import opened Policy
  import opened Sorting
  import Export

  const ItemsPerPage: nat := 10

  /** The values `Object.values` lists are those of all fields, so the
      search looks at every field. */
  lemma SomeFieldMatches(p: PolicyData, term: string)
    ensures (exists j :: 0 <= j < |Fields| && Contains(Lower(Show(Get(p, Fields[j]))), Lower(term)))
        <==> (exists f: Field :: Contains(Lower(Show(Get(p, f))), Lower(term)))
  {
    forall f: Field | Contains(Lower(Show(Get(p, f))), Lower(term))
      ensures exists j :: 0 <= j < |Fields| && Contains(Lower(Show(Get(p, Fields[j]))), Lower(term))
    {
      FieldsComplete(f);
      var j :| 0 <= j < |Fields| && Fields[j] == f;
    }
  }

  /** Some field's printed value, lowercased, contains the lowercased term. */
  predicate Matches(p: PolicyData, term: string): (b: bool)
    ensures b <==> exists f: Field :: Contains(Lower(Show(Get(p, f))), Lower(term))
  {
    SomeFieldMatches(p, term);
    exists j :: 0 <= j < |Fields| && Contains(Lower(Show(Get(p, Fields[j]))), Lower(term))
  }

  function MatchesTerm(term: string): PolicyData -> bool {
    p => Matches(p, term)
  }

  /** `filteredPolicies`. */
  function FilterPolicies(policies: seq<PolicyData>, term: string): (r: seq<PolicyData>)
    ensures |r| <= |policies|
    ensures forall i :: 0 <= i < |r| ==> Matches(r[i], term)
  {
    Filter(policies, MatchesTerm(term))
  }

  /** The filter keeps the records in order, keeps exactly those that match,
      and keeps each of them as often as it occurs. */
  lemma FilterExactly(policies: seq<PolicyData>, term: string)
    ensures IsSubsequence(FilterPolicies(policies, term), policies)
    ensures forall p :: p in FilterPolicies(policies, term) <==> p in policies && Matches(p, term)
    ensures forall p :: Matches(p, term) ==> multiset(FilterPolicies(policies, term))[p] == multiset(policies)[p]
  {
    FilterIsSubsequence(policies, MatchesTerm(term));
    forall p ensures p in FilterPolicies(policies, term) <==> p in policies && Matches(p, term) {
      FilterMembership(policies, MatchesTerm(term), p);
    }
    forall p | Matches(p, term) ensures multiset(FilterPolicies(policies, term))[p] == multiset(policies)[p] {
      FilterCount(policies, MatchesTerm(term), p);
    }
  }

  /** Every record contains the empty string, so an empty search keeps all. */
  lemma EmptySearchKeepsAll(policies: seq<PolicyData>)
    ensures FilterPolicies(policies, "") == policies
  {
    forall i | 0 <= i < |policies| ensures Matches(policies[i], "") {
      var v := Lower(Show(Get(policies[i], Fields[0])));
      ContainsEmpty(v);
      assert Lower("") == "";
    }
    FilterKeepsAll(policies, MatchesTerm(""));
  }

  /** `sortConfig`: no key, or a field and a direction. */
  datatype SortConfig = SortConfig(key: Option<Field>, direction: Direction)

  const Unsorted := SortConfig(None, Ascending)

  /** `sortedPolicies`: a sorted copy, or the filtered list itself. */
  function SortPolicies(items: seq<PolicyData>, cfg: SortConfig): (r: seq<PolicyData>)
    ensures cfg.key.None? ==> r == items
    ensures multiset(r) == multiset(items) && |r| == |items|
    ensures cfg.key.Some? ==> SortedBy(r, FieldKey(cfg.key.value), cfg.direction)
  {
    match cfg.key
    case None => items
    case Some(f) => SortBy(items, FieldKey(f), cfg.direction)
  }

  /** Sorted ascending, a record's key is never above a later record's key;
      descending, never below. */
  lemma SortedOrder(items: seq<PolicyData>, f: Field, d: Direction, i: nat, j: nat)
    requires i < j < |items|
    ensures var r := SortPolicies(items, SortConfig(Some(f), d));
      |r| == |items| &&
      (d == Ascending ==> KeyOf(r[i], f) == KeyOf(r[j], f) || KeyLess(KeyOf(r[i], f), KeyOf(r[j], f))) &&
      (d == Descending ==> KeyOf(r[i], f) == KeyOf(r[j], f) || KeyLess(KeyOf(r[j], f), KeyOf(r[i], f)))
  {
    var r := SortPolicies(items, SortConfig(Some(f), d));
    SortedMeansMonotone(r, FieldKey(f), d, i, j);
  }

  /** Records with equal keys keep their relative order (the comparator
      returns 0 for them and `Array.prototype.sort` is stable). */
  lemma SortKeepsTies(items: seq<PolicyData>, f: Field, d: Direction, k: SortKey)
    ensures Filter(SortPolicies(items, SortConfig(Some(f), d)), KeyIs(FieldKey(f), k)) ==
            Filter(items, KeyIs(FieldKey(f), k))
  {
    SortStable(items, FieldKey(f), d, k);
  }

  /** `Math.ceil(n / 10)`. */
  function TotalPages(n: nat): (t: nat)
    ensures n <= t * ItemsPerPage
    ensures t == 0 || (t - 1) * ItemsPerPage < n
    ensures t == 0 <==> n == 0
  {
    (n + ItemsPerPage - 1) / ItemsPerPage
  }

  /** `paginatedPolicies`: the slice of page `page`, with JavaScript's slice
      bounds. */
  function Paginate<T>(s: seq<T>, page: int): (r: seq<T>)
    ensures |r| <= ItemsPerPage
    ensures 1 <= page <= TotalPages(|s|) ==>
      var start := (page - 1) * ItemsPerPage;
      start < |s| && r == s[start..if start + ItemsPerPage < |s| then start + ItemsPerPage else |s|]
  {
    var start := (page - 1) * ItemsPerPage;
    Slice(s, start, start + ItemsPerPage)
  }

  /** Pages `1..totalPages`. */
  function Pages<T>(s: seq<T>): (pages: seq<seq<T>>)
    ensures |pages| == TotalPages(|s|)
    ensures forall i :: 0 <= i < |pages| ==> pages[i] == Paginate(s, i + 1)
  {
    seq(TotalPages(|s|), i requires 0 <= i < TotalPages(|s|) => Paginate(s, i + 1))
  }

  lemma {:induction false} PagesPrefix<T>(s: seq<T>, k: nat)
    requires k <= TotalPages(|s|)
    ensures Flatten(Pages(s)[..k]) == s[..if k * ItemsPerPage < |s| then k * ItemsPerPage else |s|]
  {
    if k == 0 {
      assert Pages(s)[..0] == [];
    } else {
      PagesPrefix(s, k - 1);
      var pages := Pages(s);
      assert pages[..k] == pages[..k - 1] + [pages[k - 1]];
      FlattenSnoc(pages[..k - 1], pages[k - 1]);
      assert pages[k - 1] == Paginate(s, k);
      var lo := (k - 1) * ItemsPerPage;
      var hi := if k * ItemsPerPage < |s| then k * ItemsPerPage else |s|;
      assert s[..lo] + s[lo..hi] == s[..hi];
    }
  }

  /** Concatenating pages `1..totalPages` gives the whole list back. */
  lemma PagesCoverAll<T>(s: seq<T>)
    ensures Flatten(Pages(s)) == s
  {
    var pages := Pages(s);
    PagesPrefix(s, |pages|);
    assert pages[..|pages|] == pages;
  }

  /** Twenty-five records give three pages, the last holding five. */
  lemma TwentyFiveRecords<T>(s: seq<T>)
    requires |s| == 25
    ensures TotalPages(|s|) == 3
    ensures |Paginate(s, 1)| == 10 && |Paginate(s, 2)| == 10 && |Paginate(s, 3)| == 5
    ensures Paginate(s, 3) == s[20..]
  {
  }

  /** `requestSort(key)`. */
  function RequestSort(cfg: SortConfig, k: Field): (r: SortConfig)
    ensures r.key == Some(k)
    ensures r.direction == Descending <==> cfg.key == Some(k) && cfg.direction == Ascending
  {
    if cfg.key == Some(k) && cfg.direction == Ascending then SortConfig(Some(k), Descending)
    else SortConfig(Some(k), Ascending)
  }

  /** Clicking the same header again always flips the direction. */
  lemma RequestSortAlternates(cfg: SortConfig, k: Field)
    ensures RequestSort(RequestSort(cfg, k), k).key == Some(k)
    ensures RequestSort(RequestSort(cfg, k), k).direction != RequestSort(cfg, k).direction
  {
  }

  /** The "«" button: `Math.max(1, p - 1)`. */
  function PrevPage(p: int): (r: int)
    ensures r >= 1
    ensures p > 1 ==> r == p - 1
    ensures p <= 1 ==> r == 1
  {
    if p - 1 > 1 then p - 1 else 1
  }

  /** The "»" button as written: `Math.min(totalPages, p + 1)`. */
  function NextPageAsWritten(p: int, total: nat): (r: int)
    ensures r <= total
    ensures p < total ==> r == p + 1
  {
    if total < p + 1 then total else p + 1
  }

  /** With no records the "»" button is enabled on page 1 (it is disabled
      only on page `totalPages`, here 0) and moves to page 0. Page 0 slices
      `[-10, 0)`, which is empty for every list, so once records match again
      the table still shows none. */
  lemma NextPageToZero<T>(s: seq<T>)
    requires |s| > 0
    ensures 1 != TotalPages(0) && NextPageAsWritten(1, TotalPages(0)) == 0
    ensures Paginate(s, 0) == []
  {
  }

  /** The "»" button, never leaving page 1 or above. */
  function NextPage(p: int, total: nat): (r: int)
    ensures r >= 1
    ensures total >= 1 && p <= total ==> r <= total
    ensures 1 <= p < total ==> r == p + 1
  {
    var n := NextPageAsWritten(p, total);
    if n < 1 then 1 else n
  }

  /** Inside `1..total` the two buttons undo each other. */
  lemma PrevNextInverse(p: int, total: nat)
    ensures 1 < p <= total ==> NextPage(PrevPage(p), total) == p
    ensures 1 <= p < total ==> PrevPage(NextPage(p, total)) == p
  {
  }

  /** What one render shows: the page of the sorted, filtered records. */
  function Visible(policies: seq<PolicyData>, term: string, cfg: SortConfig, page: int): (rows: seq<PolicyData>)
    ensures |rows| <= ItemsPerPage
    ensures page == 0 ==> rows == []
  {
    Paginate(SortPolicies(FilterPolicies(policies, term), cfg), page)
  }

  /** Every record on the screen is a stored record that matches the search. */
  lemma VisibleAreMatches(policies: seq<PolicyData>, term: string, cfg: SortConfig, page: int, p: PolicyData)
    requires p in Visible(policies, term, cfg, page)
    ensures p in policies && Matches(p, term)
  {
    var filtered := FilterPolicies(policies, term);
    var sorted := SortPolicies(filtered, cfg);
    var start := (page - 1) * ItemsPerPage;
    var n := |sorted|;
    var lo := if start < 0 then (if n + start < 0 then 0 else n + start) else (if start > n then n else start);
    var hi := if start + ItemsPerPage < 0 then (if n + start + ItemsPerPage < 0 then 0 else n + start + ItemsPerPage)
              else (if start + ItemsPerPage > n then n else start + ItemsPerPage);
    assert Visible(policies, term, cfg, page) == if lo < hi then sorted[lo..hi] else [];
    assert p in sorted;
    assert p in multiset(sorted);
    assert p in filtered;
    FilterExactly(policies, term);
  }

  /** The view state of the list: search term, sort configuration, page. */
  class TableView {
    var searchTerm: string
    var sortConfig: SortConfig
    var currentPage: int

    /** Pages start at 1; the "»" button can also reach page 0 (see
        `NextPageToZero`). */
    ghost predicate Valid()
      reads this
    {
      currentPage >= 0
    }

    constructor ()
      ensures Valid()
      ensures searchTerm == "" && sortConfig == Unsorted && currentPage == 1
    {
      searchTerm := "";
      sortConfig := Unsorted;
      currentPage := 1;
    }

    /** Typing in the search box; the page is not reset. */
    method SetSearchTerm(term: string)
      requires Valid()
      modifies this
      ensures Valid()
      ensures searchTerm == term && sortConfig == old(sortConfig) && currentPage == old(currentPage)
    {
      searchTerm := term;
    }

    /** Clicking a column header. */
    method ClickHeader(k: Field)
      requires Valid()
      modifies this
      ensures Valid()
      ensures sortConfig == RequestSort(old(sortConfig), k)
      ensures searchTerm == old(searchTerm) && currentPage == old(currentPage)
    {
      sortConfig := RequestSort(sortConfig, k);
    }

    /** The number of pages for the current search over `policies`. */
    function PageCount(policies: seq<PolicyData>): (n: nat)
      reads this
      ensures n == 0 <==> |FilterPolicies(policies, searchTerm)| == 0
      ensures |FilterPolicies(policies, searchTerm)| <= n * ItemsPerPage
      ensures n == 0 || (n - 1) * ItemsPerPage < |FilterPolicies(policies, searchTerm)|
    {
      TotalPages(|FilterPolicies(policies, searchTerm)|)
    }

    /** Clicking "«"; the button is disabled on page 1. */
    method ClickPrev()
      requires Valid()
      modifies this
      ensures Valid()
      ensures currentPage == if old(currentPage) == 1 then 1 else PrevPage(old(currentPage))
      ensures searchTerm == old(searchTerm) && sortConfig == old(sortConfig)
    {
      if currentPage != 1 {
        currentPage := PrevPage(currentPage);
      }
    }

    /** Clicking "»"; the button is disabled on page `totalPages`. With no
        matching records it is enabled on page 1 and moves to page 0. */
    method ClickNext(policies: seq<PolicyData>)
      requires Valid()
      modifies this
      ensures Valid()
      ensures var total := PageCount(policies);
        currentPage == if old(currentPage) == total then old(currentPage) else NextPageAsWritten(old(currentPage), total)
      ensures old(currentPage) == 1 && PageCount(policies) == 0 ==> currentPage == 0
      ensures searchTerm == old(searchTerm) && sortConfig == old(sortConfig)
    {
      var total := TotalPages(|FilterPolicies(policies, searchTerm)|);
      if currentPage != total {
        currentPage := NextPageAsWritten(currentPage, total);
      }
    }

    /** One render: the rows on screen and the page count shown beside them. */
    method Render(policies: seq<PolicyData>) returns (rows: seq<PolicyData>, totalPages: nat)
      requires Valid()
      ensures rows == Visible(policies, searchTerm, sortConfig, currentPage)
      ensures totalPages == PageCount(policies)
      ensures |rows| <= ItemsPerPage
      ensures forall p :: p in rows ==> p in policies && Matches(p, searchTerm)
    {
      var filtered := FilterPolicies(policies, searchTerm);
      var sorted := SortPolicies(filtered, sortConfig);
      rows := Paginate(sorted, currentPage);
      totalPages := TotalPages(|sorted|);
      forall p | p in rows ensures p in policies && Matches(p, searchTerm) {
        VisibleAreMatches(policies, searchTerm, sortConfig, currentPage, p);
      }
    }

    /** "Export as CSV" is given the whole stored list, whatever the search,
        sort and page. */
    method ExportCsv(policies: seq<PolicyData>) returns (text: string)
      ensures text == Export.CsvText(policies)
      ensures |policies| == 0 ==> text == ""
    {
      Export.CsvOfNothing();
      text := Export.CsvText(policies);
    }
  }
}

/**
 * The client's view derivation: from the cached record list, a case-insensitive
 * search on one column, then the status and date-range filters, then the sort.
 */
module Pipeline {
  import opened Wrappers
  import opened Text
  import opened Records
  import opened Filtering
  import opened Sorting

  /** The sort control: the column and the direction (1 ascending, -1 descending). */
  datatype SortOptions = SortOptions(value: Field, order: int)

  /** The search control: the column searched, the query text, whether the search box is open. */
  datatype SearchOptions = SearchOptions(value: Field, query: string, isSearching: bool)

  /** The filter dialog: the two date inputs, the status choice, whether the filter was applied. */
  datatype FilterOptions = FilterOptions(from: string, to: string, isActive: string, isFiltering: bool)

  /**
   * The date library, which the model does not define: `timeOf(s)` is
   * `new Date(s).getTime()`, `startOfDay(d)` and `endOfDay(d)` are the date
   * input `d` moved to 00:00:00.000 and 23:59:59.999 local time. `None`
   * stands for an invalid date (`NaN`), with which every comparison is false.
   */
  datatype DateModel = DateModel(
    timeOf: string -> Option<int>,
    startOfDay: string -> Option<int>,
    endOfDay: string -> Option<int>)

  // ---- search ----

  /** The search step runs only when the box is open and the query is not blank. */
  predicate SearchActive(search: SearchOptions) {
    search.isSearching && Trim(search.query) != ""
  }

  /** The selected column, lowercased, contains the lowercased query. */
  predicate MatchesQuery(b: Business, search: SearchOptions) {
    Includes(Lower(Key(b, search.value)), Lower(search.query))
  }

  function Searched(s: seq<Business>, search: SearchOptions): seq<Business> {
    if SearchActive(search) then Keep(s, b => MatchesQuery(b, search)) else s
  }

  // ---- status ----

  /** `'active'` and `'inactive'` select by status; any other choice (`'All'`) keeps everything. */
  predicate StatusPasses(b: Business, filter: FilterOptions) {
    !filter.isFiltering
    || ((filter.isActive == "active" ==> b.status == "active")
        && (filter.isActive == "inactive" ==> b.status == "inactive"))
  }

  function StatusFiltered(s: seq<Business>, filter: FilterOptions): seq<Business> {
    if filter.isFiltering && filter.isActive == "active" then Keep(s, (b: Business) => b.status == "active")
    else if filter.isFiltering && filter.isActive == "inactive" then Keep(s, (b: Business) => b.status == "inactive")
    else s
  }

  // ---- date range ----

  /** The date step runs only when the filter was applied and both date inputs are filled in. */
  predicate DateActive(filter: FilterOptions) {
    filter.isFiltering && filter.from != "" && filter.to != ""
  }

  /** `createdAt >= fromDate.getTime() && createdAt <= toDate.getTime()`, false whenever one side is `NaN`. */
  predicate InDateRange(b: Business, filter: FilterOptions, dates: DateModel) {
    match (dates.timeOf(b.createdAt), dates.startOfDay(filter.from), dates.endOfDay(filter.to))
    case (Some(t), Some(lo), Some(hi)) => lo <= t && t <= hi
    case _ => false
  }

  function DateFiltered(s: seq<Business>, filter: FilterOptions, dates: DateModel): seq<Business> {
    if DateActive(filter) then Keep(s, b => InDateRange(b, filter, dates)) else s
  }

  // ---- the whole view ----

  /** What a record must satisfy to be displayed. */
  predicate Admits(b: Business, search: SearchOptions, filter: FilterOptions, dates: DateModel) {
    (SearchActive(search) ==> MatchesQuery(b, search))
    && StatusPasses(b, filter)
    && (DateActive(filter) ==> InDateRange(b, filter, dates))
  }

  /** The list after search and filters, before the sort. */
  function Filtered(original: seq<Business>, search: SearchOptions, filter: FilterOptions, dates: DateModel): seq<Business> {
    DateFiltered(StatusFiltered(Searched(original, search), filter), filter, dates)
  }

  /** The displayed list: search, then the status and date filters, then the sort. */
  function View(original: seq<Business>, search: SearchOptions, filter: FilterOptions, sort: SortOptions, dates: DateModel): seq<Business> {
    SortBy(Filtered(original, search, filter, dates), sort.value, sort.order)
  }

  // ---- properties of the steps ----

  /** A closed search box or a blank query leaves the list as it is. */
  lemma SearchInactiveIsIdentity(s: seq<Business>, search: SearchOptions)
    requires !search.isSearching || Blank(search.query)
    ensures Searched(s, search) == s
  {
    TrimEmptyIffBlank(search.query);
  }

  /**
   * An open search with a query that is not all whitespace keeps, in order, exactly the
   * records whose column contains the query, ignoring case.
   */
  lemma SearchKeepsMatches(s: seq<Business>, search: SearchOptions)
    requires search.isSearching && !Blank(search.query)
    ensures IsSubsequence(Searched(s, search), s)
    ensures forall i :: 0 <= i < |Searched(s, search)| ==> MatchesQuery(Searched(s, search)[i], search)
    ensures forall x :: multiset(Searched(s, search))[x] == if MatchesQuery(x, search) then multiset(s)[x] else 0
  {
    TrimEmptyIffBlank(search.query);
  }

  /** A record matches exactly when the query occurs somewhere in its lowercased column, ignoring case. */
  lemma MatchesQueryIff(b: Business, search: SearchOptions)
    ensures MatchesQuery(b, search) <==> exists i :: OccursAt(Lower(Key(b, search.value)), Lower(search.query), i)
  {
    assert MatchesQuery(b, search) == Includes(Lower(Key(b, search.value)), Lower(search.query));
    IncludesIff(Lower(Key(b, search.value)), Lower(search.query));
  }

  /** The search ignores the case of the query: a lowercased query selects the same records. */
  lemma SearchIgnoresQueryCase(s: seq<Business>, search: SearchOptions)
    ensures Searched(s, search) == Searched(s, search.(query := Lower(search.query)))
  {
    var lowered := search.(query := Lower(search.query));
    LowerIdempotent(search.query);
    if SearchActive(search) != SearchActive(lowered) {
      TrimEmptyIffBlank(search.query);
      TrimEmptyIffBlank(lowered.query);
      LowerKeepsBlank(search.query);
    }
    assert forall b :: MatchesQuery(b, search) == MatchesQuery(b, lowered);
    KeepSamePredicate(s, b => MatchesQuery(b, search), b => MatchesQuery(b, lowered));
  }

  lemma LowerKeepsBlank(q: string)
    ensures Blank(Lower(q)) <==> Blank(q)
  {
    forall i | 0 <= i < |q| ensures IsWhitespace(Lower(q)[i]) <==> IsWhitespace(q[i]) {
      assert Lower(q)[i] == LowerChar(q[i]);
    }
  }

  /**
   * With the filter applied and the choice `'active'` or `'inactive'`, the status step keeps,
   * in order, exactly the records with that status; any other choice keeps the list.
   */
  lemma StatusSelects(s: seq<Business>, filter: FilterOptions)
    ensures IsSubsequence(StatusFiltered(s, filter), s)
    ensures filter.isFiltering && (filter.isActive == "active" || filter.isActive == "inactive") ==>
      forall i :: 0 <= i < |StatusFiltered(s, filter)| ==> StatusFiltered(s, filter)[i].status == filter.isActive
    ensures forall x :: multiset(StatusFiltered(s, filter))[x] == if StatusPasses(x, filter) then multiset(s)[x] else 0
    ensures !filter.isFiltering || (filter.isActive != "active" && filter.isActive != "inactive") ==>
      StatusFiltered(s, filter) == s
  {
    if !(filter.isFiltering && (filter.isActive == "active" || filter.isActive == "inactive")) {
      assert IsSubsequence(s, s) by { SubsequenceReflexive(s); }
    }
  }

  /**
   * With the filter applied and both dates filled in, the date step keeps, in order, exactly
   * the records whose creation time lies between the start of the first day and the end of
   * the last day, both bounds included.
   */
  lemma DateSelects(s: seq<Business>, filter: FilterOptions, dates: DateModel, lo: int, hi: int)
    requires DateActive(filter)
    requires dates.startOfDay(filter.from) == Some(lo) && dates.endOfDay(filter.to) == Some(hi)
    ensures IsSubsequence(DateFiltered(s, filter, dates), s)
    ensures forall x :: multiset(DateFiltered(s, filter, dates))[x] ==
                          if (exists t :: dates.timeOf(x.createdAt) == Some(t) && lo <= t <= hi) then multiset(s)[x] else 0
  {
    forall x ensures InDateRange(x, filter, dates) <==> exists t :: dates.timeOf(x.createdAt) == Some(t) && lo <= t <= hi {
      if dates.timeOf(x.createdAt).Some? {
        var t := dates.timeOf(x.createdAt).value;
        assert dates.timeOf(x.createdAt) == Some(t);
      }
    }
  }

  /** An unapplied filter, or a missing date input, skips the date step. */
  lemma DateInactiveIsIdentity(s: seq<Business>, filter: FilterOptions, dates: DateModel)
    requires !filter.isFiltering || filter.from == "" || filter.to == ""
    ensures DateFiltered(s, filter, dates) == s
  {
  }

  // ---- properties of the whole view ----

  /** Before the sort, the list is the original with the records that do not qualify removed. */
  lemma FilteredIsSubsequence(original: seq<Business>, search: SearchOptions, filter: FilterOptions, dates: DateModel)
    ensures IsSubsequence(Filtered(original, search, filter, dates), original)
  {
    var a := Searched(original, search);
    var b := StatusFiltered(a, filter);
    if SearchActive(search) { } else { SubsequenceReflexive(original); }
    StatusSelects(a, filter);
    SubsequenceTransitive(b, a, original);
    if DateActive(filter) { } else { SubsequenceReflexive(b); }
    SubsequenceTransitive(Filtered(original, search, filter, dates), b, original);
  }

  /**
   * The displayed list holds every qualifying record of the original exactly as often as the
   * original does, and nothing else.
   */
  lemma ViewCounts(original: seq<Business>, search: SearchOptions, filter: FilterOptions, sort: SortOptions, dates: DateModel)
    ensures forall x :: multiset(View(original, search, filter, sort, dates))[x] ==
                          if Admits(x, search, filter, dates) then multiset(original)[x] else 0
  {
    var a := Searched(original, search);
    StatusSelects(a, filter);
  }

  /** A record is displayed exactly when it is cached and qualifies. */
  lemma ViewMembership(original: seq<Business>, search: SearchOptions, filter: FilterOptions, sort: SortOptions, dates: DateModel, x: Business)
    ensures x in View(original, search, filter, sort, dates) <==> x in original && Admits(x, search, filter, dates)
  {
    var v := View(original, search, filter, sort, dates);
    ViewCounts(original, search, filter, sort, dates);
    assert x in v <==> multiset(v)[x] > 0;
    assert x in original <==> multiset(original)[x] > 0;
  }

  /** The displayed list is a sub-multiset of the cache, ordered as the sort control says. */
  lemma ViewSubsetAndSorted(original: seq<Business>, search: SearchOptions, filter: FilterOptions, sort: SortOptions, dates: DateModel)
    ensures multiset(View(original, search, filter, sort, dates)) <= multiset(original)
    ensures Sorted(View(original, search, filter, sort, dates), sort.value, sort.order)
  {
    ViewCounts(original, search, filter, sort, dates);
  }

  /** Deriving the view again from the displayed list gives the displayed list. */
  lemma ViewIdempotent(original: seq<Business>, search: SearchOptions, filter: FilterOptions, sort: SortOptions, dates: DateModel)
    ensures View(View(original, search, filter, sort, dates), search, filter, sort, dates) == View(original, search, filter, sort, dates)
  {
    var v := View(original, search, filter, sort, dates);
    ViewCounts(original, search, filter, sort, dates);
    forall i | 0 <= i < |v| ensures Admits(v[i], search, filter, dates) {
      assert v[i] in multiset(v);
    }
    var a := Searched(v, search);
    assert a == v by {
      if SearchActive(search) { KeepAllPass(v, b => MatchesQuery(b, search)); }
    }
    var b := StatusFiltered(a, filter);
    assert b == v by {
      if filter.isFiltering && filter.isActive == "active" {
        KeepAllPass(v, (x: Business) => x.status == "active");
      } else if filter.isFiltering && filter.isActive == "inactive" {
        KeepAllPass(v, (x: Business) => x.status == "inactive");
      }
    }
    assert Filtered(v, search, filter, dates) == v by {
      if DateActive(filter) { KeepAllPass(v, x => InDateRange(x, filter, dates)); }
    }
    SortBySorted(v, sort.value, sort.order);
  }

  /** Clearing the filters leaves the searched and sorted original, not the unsorted one. */
  lemma ClearedView(original: seq<Business>, search: SearchOptions, sort: SortOptions, dates: DateModel)
    ensures View(original, search, ClearedFilter(), sort, dates) == SortBy(Searched(original, search), sort.value, sort.order)
  {
  }

  /** The filter state `handleClearFilter` restores (also the initial one). */
  function ClearedFilter(): (f: FilterOptions)
    ensures !f.isFiltering && !DateActive(f)
  {
    FilterOptions("", "", "All", false)
  }
}

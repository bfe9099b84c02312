/**
 * The `App` component's state and handlers: the cached records, the displayed
 * list, the sort, search and filter controls, and the page cursor.
 */
module App {
  import opened Records
  import opened Text
  import opened Filtering
  import opened Sorting
  import opened Pipeline
  import opened Paging

  /** The directions `handleSort` alternates between. */
  predicate IsDirection(order: int) {
    order == 1 || order == -1
  }

  /** The choices of the "Items per page" selector. */
  predicate IsPageSize(n: int) {
    n == 5 || n == 10 || n == 15 || n == 20
  }

  /** What `handleSort(value)` sets: the new column and the direction negated. */
  function Toggled(sort: SortOptions, value: Field): (r: SortOptions)
    ensures r.value == value && r.order == -sort.order
    ensures IsDirection(sort.order) ==> IsDirection(r.order) && r.order != sort.order
  {
    SortOptions(value, -sort.order)
  }

  /** Two clicks on sort buttons restore the direction, whichever columns they are for. */
  lemma ToggleTwiceRestoresOrder(sort: SortOptions, first: Field, second: Field)
    ensures Toggled(Toggled(sort, first), second).order == sort.order
    ensures Toggled(Toggled(sort, first), first) == sort.(value := first)
    ensures Toggled(Toggled(sort, sort.value), sort.value) == sort
  {
  }

  class AppState {
    var businessOriginal: seq<Business>
    var business: seq<Business>
    var sort: SortOptions
    var search: SearchOptions
    var filter: FilterOptions
    var currPage: int
    var perPage: int
    /** The browser's date library and time zone. */
    const dates: DateModel

    ghost predicate Valid()
      reads this
    {
      IsDirection(sort.order) && 1 <= currPage && IsPageSize(perPage)
    }

    /** The state the component starts with (`useState` initial values). */
    constructor (dates: DateModel)
      ensures Valid()
      ensures this.dates == dates
      ensures businessOriginal == [] && business == []
      ensures sort == SortOptions(CreatedAt, 1)
      ensures search == SearchOptions(Name, "", false)
      ensures filter == ClearedFilter()
      ensures currPage == 1 && perPage == 5
    {
      this.dates := dates;
      businessOriginal, business := [], [];
      sort := SortOptions(CreatedAt, 1);
      search := SearchOptions(Name, "", false);
      filter := ClearedFilter();
      currPage, perPage := 1, 5;
    }

    /** `pages` */
    function PageCount(): nat
      reads this
      requires Valid()
    {
      Pages(|business|, perPage)
    }

    /** `currBusiness`: the records on the current page. */
    function CurrentWindow(): (w: seq<Business>)
      reads this
      requires Valid()
      ensures (currPage - 1) * perPage < |business| ==>
        w == business[(currPage - 1) * perPage..Min(currPage * perPage, |business|)]
      ensures |w| <= perPage
      ensures currPage > PageCount() ==> w == []
    {
      var w := Window(business, currPage, perPage);
      WindowIsSlice(business, currPage, perPage);
      assert currPage > PageCount() ==> w == [] by {
        if currPage > PageCount() { WindowBeyondLastIsEmpty(business, currPage, perPage); }
      }
      w
    }

    /** A successful fetch replaces both the displayed and the cached list with the table's records. */
    method ReceiveRecords(items: seq<Business>)
      modifies this`business, this`businessOriginal
      ensures business == items && businessOriginal == items
    {
      business := items;
      businessOriginal := items;
    }

    /** The derivation effect: restarts from the cache and applies search, filters and sort in turn. */
    method RunViewEffect()
      modifies this`business
      ensures business == View(businessOriginal, search, filter, sort, dates)
    {
      var search, filter, dates := this.search, this.filter, this.dates;
      var filtered := businessOriginal;
      if search.isSearching && Trim(search.query) != "" {
        filtered := Keep(filtered, (b: Business) => MatchesQuery(b, search));
      }
      if filter.isFiltering {
        if filter.isActive == "active" {
          filtered := Keep(filtered, (b: Business) => b.status == "active");
        } else if filter.isActive == "inactive" {
          filtered := Keep(filtered, (b: Business) => b.status == "inactive");
        }
        if filter.from != "" && filter.to != "" {
          filtered := Keep(filtered, (b: Business) => InDateRange(b, filter, dates));
        }
      }
      business := SortBy(filtered, sort.value, sort.order);
    }

    /** `handleSort(value)`: sort by `value`, direction negated whatever column was sorted before. */
    method HandleSort(value: Field)
      requires Valid()
      modifies this`sort
      ensures Valid()
      ensures sort == Toggled(old(sort), value)
    {
      sort := SortOptions(value, -sort.order);
    }

    /** The search box and its open/close buttons set the whole search control. */
    method SetSearch(options: SearchOptions)
      modifies this`search
      ensures search == options
    {
      search := options;
    }

    /** The filter dialog's inputs edit the dates and the status choice. */
    method EditFilter(from: string, to: string, isActive: string)
      modifies this`filter
      ensures filter == old(filter).(from := from, to := to, isActive := isActive)
    {
      filter := filter.(from := from, to := to, isActive := isActive);
    }

    /** `handleClearFilter`: the filter back to its initial value and the cache shown as it is. */
    method HandleClearFilter()
      modifies this`filter, this`business
      ensures filter == ClearedFilter()
      ensures business == businessOriginal
    {
      filter := ClearedFilter();
      business := businessOriginal;
    }

    /** `handleApplyFilter`: the dialog's settings take effect. */
    method HandleApplyFilter()
      modifies this`filter
      ensures filter == old(filter).(isFiltering := true)
    {
      filter := filter.(isFiltering := true);
    }

    /** The "Items per page" selector; the current page is left as it is. */
    method SetPerPage(n: int)
      requires Valid() && IsPageSize(n)
      modifies this`perPage
      ensures Valid() && perPage == n
    {
      perPage := n;
    }

    /** `handlePageChange(page)`, called by the button of page `page`. */
    method HandlePageChange(page: int)
      requires Valid() && 1 <= page
      modifies this`currPage
      ensures Valid() && currPage == page
    {
      currPage := page;
    }

    /** `nextPage`: one page on, unless on the last page or beyond. */
    method NextPage()
      requires Valid()
      modifies this`currPage
      ensures Valid()
      ensures currPage == if old(currPage) < PageCount() then old(currPage) + 1 else old(currPage)
      ensures currPage != old(currPage) ==> currPage <= PageCount()
    {
      if currPage < PageCount() {
        currPage := currPage + 1;
      }
    }

    /** `prevPage`: one page back, unless on the first page. */
    method PrevPage()
      requires Valid()
      modifies this`currPage
      ensures Valid()
      ensures currPage == if old(currPage) > 1 then old(currPage) - 1 else old(currPage)
    {
      if currPage > 1 {
        currPage := currPage - 1;
      }
    }
  }

  /**
   * Clearing the filters, then the derivation the changed filter triggers: the list shown
   * is the searched and sorted cache.
   */
  method ClearFiltersAndRederive(app: AppState)
    modifies app`filter, app`business
    ensures app.filter == ClearedFilter()
    ensures app.business == SortBy(Searched(app.businessOriginal, app.search), app.sort.value, app.sort.order)
  {
    app.HandleClearFilter();
    app.RunViewEffect();
    ClearedView(app.businessOriginal, app.search, app.sort, app.dates);
  }
}

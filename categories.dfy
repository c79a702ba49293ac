/**
 * The categories page: the filters (search text, parent, active only, sort
 * order), the filtered and sorted list, and its twelve-per-page slice. The
 * catalogue is a module-level array, and sorting it with no filter applied
 * reorders that array itself. String collation (`localeCompare`) is the
 * parameter `collate`.
 */
module Categories {
  import opened Common
  import opened Seqs
  import opened Text

  datatype Category = Category(id: string, name: string, parentId: Option<string>, itemsCount: int)

  datatype SortOrder = NameAsc | NameDesc | ItemsDesc | UpdatedDesc

  datatype Filters = Filters(q: string, parentId: string, activeOnly: bool, sort: SortOrder)

  const PageSize := 12

  /** The filters the page starts with, and that "Xóa bộ lọc" restores. */
  const DefaultFilters := Filters("", "all", false, NameAsc)

  /** `mapSortByToSort`. */
  function MapSortBy(sortBy: string): (r: SortOrder)
    ensures sortBy == "name-desc" ==> r == NameDesc
    ensures sortBy == "items-desc" ==> r == ItemsDesc
    ensures sortBy != "name-desc" && sortBy != "items-desc" ==> r == NameAsc
  {
    if sortBy == "name-asc" then NameAsc
    else if sortBy == "name-desc" then NameDesc
    else if sortBy == "items-desc" then ItemsDesc
    else NameAsc
  }

  /** The filter bar offers the orders "latest", "views" and "rating", none of
      which `mapSortByToSort` knows: every choice made there sorts by name. */
  lemma BarSortsByName(sortBy: string)
    requires sortBy == "latest" || sortBy == "views" || sortBy == "rating"
    ensures MapSortBy(sortBy) == NameAsc
  {
  }

  predicate NameMatches(c: Category, q: string) { Contains(Lower(c.name), Lower(q)) }

  /** What each active filter asks of a category. */
  predicate Matches(c: Category, f: Filters) {
    (f.q != "" ==> NameMatches(c, f.q)) &&
    (f.parentId != "all" ==> c.parentId == Some(f.parentId)) &&
    (f.activeOnly ==> c.itemsCount > 0)
  }

  /** No filter applies, so the list being sorted is the catalogue itself. */
  predicate NoFilter(f: Filters) {
    f.q == "" && f.parentId == "all" && !f.activeOnly
  }

  /** The three `filter` calls, each applied only when its filter is set. */
  function Select(all: seq<Category>, f: Filters): seq<Category> {
    var byName := if f.q != "" then Filter(all, (c: Category) => NameMatches(c, f.q)) else all;
    var byParent := if f.parentId != "all" then Filter(byName, (c: Category) => c.parentId == Some(f.parentId)) else byName;
    if f.activeOnly then Filter(byParent, (c: Category) => c.itemsCount > 0) else byParent
  }

  /** The comparator as "a goes after b". */
  function After(order: SortOrder, collate: (string, string) -> int): (Category, Category) -> bool {
    match order
    case NameAsc => (a: Category, b: Category) => collate(a.name, b.name) > 0
    case NameDesc => (a: Category, b: Category) => collate(b.name, a.name) > 0
    case ItemsDesc => (a: Category, b: Category) => b.itemsCount - a.itemsCount > 0
    case UpdatedDesc => (a: Category, b: Category) => false
  }

  /** `filtered`. */
  function Filtered(all: seq<Category>, f: Filters, collate: (string, string) -> int): seq<Category> {
    SortWith(Select(all, f), After(f.sort, collate))
  }

  function ItemsCount(c: Category): int { c.itemsCount }

  /** A category is selected exactly when it is in the catalogue and passes
      every filter that is set; nothing is added or repeated. */
  lemma SelectSpec(all: seq<Category>, f: Filters)
    ensures forall c :: c in Select(all, f) <==> c in all && Matches(c, f)
    ensures multiset(Select(all, f)) <= multiset(all)
  {
  }

  /** The filtered list is a reordering of the selected categories: each is
      in the catalogue and passes the filters, and a selection sorted by item
      count is in non-increasing count. The order without a comparator
      ("updated-desc") is the catalogue's. */
  lemma FilteredSpec(all: seq<Category>, f: Filters, collate: (string, string) -> int)
    ensures multiset(Filtered(all, f, collate)) == multiset(Select(all, f))
    ensures multiset(Filtered(all, f, collate)) <= multiset(all)
    ensures forall c :: c in Filtered(all, f, collate) <==> c in all && Matches(c, f)
    ensures f.sort == ItemsDesc ==> NonIncreasing(Filtered(all, f, collate), ItemsCount)
    ensures f.sort == UpdatedDesc ==> Filtered(all, f, collate) == Select(all, f)
  {
    var sel := Select(all, f);
    var r := Filtered(all, f, collate);
    SelectSpec(all, f);
    forall c ensures c in r <==> c in sel {
      assert c in r <==> c in multiset(r);
      assert c in sel <==> c in multiset(sel);
    }
    if f.sort == ItemsDesc {
      SortDescNonIncreasing(sel, After(f.sort, collate), ItemsCount);
    }
    if f.sort == UpdatedDesc {
      SortNeverAfter(sel, After(f.sort, collate));
    }
  }

  /** `Array.prototype.slice(start, end)`, negative positions counting from
      the end. */
  function Slice<T>(xs: seq<T>, start: int, end: int): (r: seq<T>)
    ensures |r| <= |xs|
  {
    var s := if start < 0 then Max(|xs| + start, 0) else Min(start, |xs|);
    var e := if end < 0 then Max(|xs| + end, 0) else Min(end, |xs|);
    if s < e then xs[s..e] else []
  }

  /** `paged` for a given list and page. */
  function PagedOf(filtered: seq<Category>, page: int): seq<Category> {
    Slice(filtered, (page - 1) * PageSize, (page - 1) * PageSize + PageSize)
  }

  /** From page 1 on, the page holds the (at most twelve) categories starting
      at position (page - 1) * 12. */
  lemma PagedSpec(filtered: seq<Category>, page: int)
    requires page >= 1
    ensures PagedOf(filtered, page) == Window(filtered, (page - 1) * PageSize, PageSize)
    ensures |PagedOf(filtered, page)| <= PageSize
  {
  }

  class CategoriesPage {
    /** `ALL`, which sorting an unfiltered list reorders in place. */
    var all: seq<Category>
    var filters: Filters
    var page: int
    var filtered: seq<Category>
    const collate: (string, string) -> int

    /** Everything listed comes from the catalogue and passes the filters. */
    predicate Valid()
      reads this
    {
      forall c :: c in filtered ==> c in all && Matches(c, filters)
    }

    /** The first render: default filters, page 1, and the catalogue sorted
        by name in place. */
    constructor(catalogue: seq<Category>, collate: (string, string) -> int)
      ensures Valid()
      ensures this.collate == collate && filters == DefaultFilters && page == 1
      ensures all == SortWith(catalogue, After(NameAsc, collate)) && filtered == all
    {
      this.collate := collate;
      filters := DefaultFilters;
      page := 1;
      var sorted := Filtered(catalogue, DefaultFilters, collate);
      all := sorted;
      filtered := sorted;
      new;
      FilteredSpec(catalogue, DefaultFilters, collate);
      assert forall c :: c in filtered ==> c in all;
    }

    /** A new filter value: the effect resets the page to 1 and the list is
        recomputed, sorting the catalogue itself when no filter applies. */
    method SetFilters(f: Filters)
      requires Valid()
      modifies this
      ensures Valid()
      ensures filters == f && page == 1
      ensures filtered == Filtered(old(all), f, collate)
      ensures all == if NoFilter(f) then filtered else old(all)
      ensures multiset(all) == multiset(old(all))
    {
      filters := f;
      page := 1;
      var result := Filtered(all, f, collate);
      FilteredSpec(all, f, collate);
      if NoFilter(f) {
        assert Select(all, f) == all;
        all := result;
      }
      filtered := result;
      assert forall c :: c in result ==> c in all by {
        forall c | c in result ensures c in all {
          assert c in multiset(result);
        }
      }
    }

    /** `onFilterChange` of the filter bar: a search text and a sort choice
        each replace their filter; the page is reset whenever either is given. */
    method OnFilterChange(q: Option<string>, sortBy: Option<string>)
      requires Valid()
      modifies this
      ensures Valid()
      ensures q.None? && (sortBy.None? || sortBy.value == "") ==> all == old(all) && filters == old(filters) && page == old(page) && filtered == old(filtered)
      ensures q.Some? || (sortBy.Some? && sortBy.value != "") ==>
        page == 1 &&
        filters == old(filters).(q := if q.Some? then q.value else old(filters).q,
                                 sort := if sortBy.Some? && sortBy.value != "" then MapSortBy(sortBy.value) else old(filters).sort) &&
        filtered == Filtered(old(all), filters, collate) &&
        all == (if NoFilter(filters) then filtered else old(all))
    {
      var f := filters;
      if q.Some? {
        f := f.(q := q.value);
      }
      if sortBy.Some? && sortBy.value != "" {
        f := f.(sort := MapSortBy(sortBy.value));
      }
      if q.Some? || (sortBy.Some? && sortBy.value != "") {
        SetFilters(f);
      }
    }

    /** "Xóa bộ lọc": back to the default filters, and to page 1. */
    method ClearFilters()
      requires Valid()
      modifies this
      ensures Valid()
      ensures filters == DefaultFilters && page == 1
      ensures all == SortWith(old(all), After(NameAsc, collate)) && filtered == all
    {
      SetFilters(DefaultFilters);
    }

    /** `onPageChange`. */
    method SetPage(p: int)
      modifies this
      ensures page == p && all == old(all) && filters == old(filters) && filtered == old(filtered)
    {
      page := p;
    }

    /** `paged`. */
    function Paged(): (r: seq<Category>)
      reads this
      ensures page >= 1 ==> r == Window(filtered, (page - 1) * PageSize, PageSize)
      ensures page >= 1 ==> |r| <= PageSize
    {
      if page >= 1 then
        PagedSpec(filtered, page);
        PagedOf(filtered, page)
      else PagedOf(filtered, page)
    }
  }
}

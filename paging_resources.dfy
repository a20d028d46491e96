/** The paging request and response of the HTTP API, and the two shared steps every paged
    endpoint takes: turning the request into a `PagingSpec` and reading the answered spec
    back into a response. Only the fields the endpoints here read or rewrite are kept. */
module PagingResources {
  import opened Wrappers
  import opened Paging

  /** One `key=value` filter of a paging request. */
  datatype FilterResource = FilterResource(key: string, value: string)

  datatype PagingResource = PagingResource(
    page: int,
    pageSize: int,
    sortKey: Option<string>,
    sortDirection: SortDirection,
    filters: seq<FilterResource>)

  datatype PagingResponse = PagingResponse(
    page: int,
    pageSize: int,
    sortKey: Option<string>,
    sortDirection: SortDirection,
    totalRecords: int)

  /** The default arguments of `MapToPagingSpec`, which a call without arguments sorts by:
      `Id`, ascending. */
  const DefaultSortKey: Option<string> := Some("Id")
  const DefaultSortDirection := Ascending

  /** `Filters.FirstOrDefault(f => f.Key == key)` tests this. */
  function KeyIs(key: string): FilterResource -> bool {
    (f: FilterResource) => f.key == key
  }

  /** `MapToPagingSpec`: a new spec with the request's page and sort, the given defaults
      standing in for a sort the request leaves unset, and no filter expressions. */
  method MapToPagingSpec<T>(resource: PagingResource, defaultSortKey: Option<string>, defaultDirection: SortDirection)
    returns (spec: PagingSpec<T>)
    ensures fresh(spec)
    ensures spec.page == resource.page && spec.pageSize == resource.pageSize
    ensures spec.sortKey == if resource.sortKey.Some? then resource.sortKey else defaultSortKey
    ensures spec.sortDirection == if resource.sortDirection != Default then resource.sortDirection else defaultDirection
    ensures spec.filterExpressions == [] && spec.records == [] && spec.totalRecords == 0
  {
    spec := new PagingSpec<T>();
    spec.page, spec.pageSize := resource.page, resource.pageSize;
    spec.sortKey := if resource.sortKey.Some? then resource.sortKey else defaultSortKey;
    spec.sortDirection := if resource.sortDirection != Default then resource.sortDirection else defaultDirection;
  }

  /** The response `ApplyToPage` builds from the answered spec. */
  function ResponseOf<T>(spec: PagingSpec<T>): PagingResponse
    reads spec
  {
    PagingResponse(spec.page, spec.pageSize, spec.sortKey, spec.sortDirection, spec.totalRecords)
  }
}

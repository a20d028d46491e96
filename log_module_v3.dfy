/** `GetLogs` of the version 3 API: the log listing with its level filter and the `time`
    sort key, which the store answers by `id`. */
module LogModuleV3 {
  import opened Wrappers
  import opened Tables
  import opened SqlBuilders
  import opened Paging
  import opened PagingResources
  import opened LogLevels

  /** `Filters.FirstOrDefault(f => f.Key == "level")`: the value of the first filter keyed
      `level`, wherever it stands in the list. */
  function LevelRequest(filters: seq<FilterResource>): (r: Option<string>)
    ensures r.None? <==> forall f :: f in filters ==> f.key != "level"
    ensures r.Some? ==> exists k :: 0 <= k < |filters| && filters[k] == FilterResource("level", r.value) &&
                          forall m :: 0 <= m < k ==> filters[m].key != "level"
  {
    var f := FirstWhere(filters, KeyIs("level"));
    if f.None? then None else Some(f.value.value)
  }

  /** The sort key sent to the store: `time` is answered by `id`, which orders log entries
      the same way. */
  function QuerySortKey(sortKey: Option<string>): (r: Option<string>)
    ensures r == Some("id") <==> sortKey == Some("time") || sortKey == Some("id")
    ensures sortKey != Some("time") ==> r == sortKey
    ensures r != Some("time")
  {
    if sortKey == Some("time") then Some("id") else sortKey
  }

  /** The sort key reported back: `id` is reported as `time`. */
  function ResponseSortKey(sortKey: Option<string>): (r: Option<string>)
    ensures r == Some("time") <==> sortKey == Some("id") || sortKey == Some("time")
    ensures sortKey != Some("id") ==> r == sortKey
  {
    if sortKey == Some("id") then Some("time") else sortKey
  }

  /** A request sorted by `time` is reported back sorted by `time`, and so is a request
      sorted by `id`; every other key is reported as requested. */
  lemma SortKeyRoundTrip(sortKey: Option<string>)
    ensures ResponseSortKey(QuerySortKey(sortKey)) == if sortKey == Some("id") then Some("time") else sortKey
  {
  }

  /** `GetLogs`: the spec sent to the log service (the helper's default sort when the
      request has none, sort key rewritten, at most one level
      filter appended) and the response read back from it with `id` reported as `time`. */
  method GetLogs(resource: PagingResource, supply: NameSupply) returns (pageSpec: PagingSpec<string>, response: PagingResponse)
    modifies supply
    ensures fresh(pageSpec)
    ensures pageSpec.sortKey == QuerySortKey(if resource.sortKey.Some? then resource.sortKey else DefaultSortKey)
    ensures pageSpec.sortDirection == if resource.sortDirection != Default then resource.sortDirection else DefaultSortDirection
    ensures pageSpec.page == resource.page && pageSpec.pageSize == resource.pageSize
    ensures LevelFilterOf(LevelRequest(resource.filters)).None? ==> pageSpec.filterExpressions == []
    ensures LevelFilterOf(LevelRequest(resource.filters)).Some? ==>
              |pageSpec.filterExpressions| == 1 &&
              IsLevelFilter(pageSpec.filterExpressions[0], LevelFilterOf(LevelRequest(resource.filters)).value, old(supply.next))
    ensures response == ResponseOf(pageSpec).(sortKey := ResponseSortKey(pageSpec.sortKey))
  {
    pageSpec := MapToPagingSpec<string>(resource, DefaultSortKey, DefaultSortDirection);
    if pageSpec.sortKey == Some("time") {
      pageSpec.sortKey := Some("id");
    }
    var levelFilter := LevelRequest(resource.filters);
    AddLevelFilter(pageSpec, levelFilter, supply);
    response := ResponseOf(pageSpec);
    if pageSpec.sortKey == Some("id") {
      response := response.(sortKey := Some("time"));
    }
  }
}

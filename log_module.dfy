/** `GetLogs` of the older API: as in version 3, except that only the first filter of the
    request is looked at and the response keeps the rewritten sort key. */
module LogModule {
  import opened Wrappers
  import opened SqlBuilders
  import opened Paging
  import opened PagingResources
  import opened LogLevels
  import LogModuleV3

  /** `Filters.FirstOrDefault()` checked for the key `level`: a level filter anywhere but
      first is ignored. */
  function FirstLevelRequest(filters: seq<FilterResource>): (r: Option<string>)
    ensures r.Some? <==> filters != [] && filters[0].key == "level"
    ensures r.Some? ==> r.value == filters[0].value
  {
    if filters != [] && filters[0].key == "level" then Some(filters[0].value) else None
  }

  /** Whenever the older endpoint sees a level, the version 3 endpoint sees the same one. */
  lemma FirstLevelAgreesWithV3(filters: seq<FilterResource>)
    requires FirstLevelRequest(filters).Some?
    ensures LogModuleV3.LevelRequest(filters) == FirstLevelRequest(filters)
  {
    var r := LogModuleV3.LevelRequest(filters);
    var k :| 0 <= k < |filters| && filters[k] == FilterResource("level", r.value) &&
             forall m :: 0 <= m < k ==> filters[m].key != "level";
    assert k == 0;
  }

  /** A level filter after some other filter is seen only by the version 3 endpoint. */
  lemma SecondLevelIgnored(other: FilterResource, level: string)
    requires other.key != "level"
    ensures FirstLevelRequest([other, FilterResource("level", level)]).None?
    ensures LogModuleV3.LevelRequest([other, FilterResource("level", level)]) == Some(level)
  {
    var filters := [other, FilterResource("level", level)];
    var r := LogModuleV3.LevelRequest(filters);
    assert filters[1] in filters;
    var k :| 0 <= k < |filters| && filters[k] == FilterResource("level", r.value) &&
             forall m :: 0 <= m < k ==> filters[m].key != "level";
    assert k == 1;
  }

  /** `GetLogs`: the spec sent to the log service (the helper's default sort when the
      request has none, sort key `time` rewritten to `id`, at
      most one level filter appended) and the response read back unchanged. */
  method GetLogs(resource: PagingResource, supply: NameSupply) returns (pageSpec: PagingSpec<string>, response: PagingResponse)
    modifies supply
    ensures fresh(pageSpec)
    ensures pageSpec.sortKey == LogModuleV3.QuerySortKey(if resource.sortKey.Some? then resource.sortKey else DefaultSortKey)
    ensures pageSpec.sortDirection == if resource.sortDirection != Default then resource.sortDirection else DefaultSortDirection
    ensures pageSpec.page == resource.page && pageSpec.pageSize == resource.pageSize
    ensures LevelFilterOf(FirstLevelRequest(resource.filters)).None? ==> pageSpec.filterExpressions == []
    ensures LevelFilterOf(FirstLevelRequest(resource.filters)).Some? ==>
              |pageSpec.filterExpressions| == 1 &&
              IsLevelFilter(pageSpec.filterExpressions[0], LevelFilterOf(FirstLevelRequest(resource.filters)).value, old(supply.next))
    ensures response == ResponseOf(pageSpec)
  {
    pageSpec := MapToPagingSpec<string>(resource, DefaultSortKey, DefaultSortDirection);
    if pageSpec.sortKey == Some("time") {
      pageSpec.sortKey := Some("id");
    }
    var filter := FirstLevelRequest(resource.filters);
    AddLevelFilter(pageSpec, filter, supply);
    response := ResponseOf(pageSpec);
  }
}

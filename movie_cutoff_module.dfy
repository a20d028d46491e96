/** `GetCutoffUnmetMovies` of the wanted/cutoff endpoint: the listing of movies whose file
    is below their profile's cutoff, sorted by title unless the request says otherwise, and
    restricted to monitored movies unless the request asks for unmonitored ones. */
module MovieCutoffModule {
  import opened Wrappers
  import opened Tables
  import opened SqlBuilders
  import opened Paging
  import opened PagingResources
  import opened QualityCutoff
  import opened MovieEntities
  import opened MovieResults
  import opened MovieJoin
  import opened MovieRepositories

  /** The first filter keyed `monitored` holds exactly `false`. */
  predicate FirstMonitoredFalse(filters: seq<FilterResource>) {
    exists k :: 0 <= k < |filters| && filters[k] == FilterResource("monitored", "false") &&
      forall m :: 0 <= m < k ==> filters[m].key != "monitored"
  }

  /** The `Monitored` value the listing asks for: `false` only when the first filter keyed
      `monitored` holds exactly `false`; `true` when there is no such filter or it holds
      anything else. */
  function MonitoredWanted(filters: seq<FilterResource>): (r: bool)
    ensures !r <==> FirstMonitoredFalse(filters)
    ensures (forall f :: f in filters ==> f.key != "monitored") ==> r
  {
    var filter := FirstWhere(filters, KeyIs("monitored"));
    assert FirstMonitoredFalse(filters) ==> filter.Some? && filter.value.value == "false" by {
      if FirstMonitoredFalse(filters) {
        var k :| 0 <= k < |filters| && filters[k] == FilterResource("monitored", "false") &&
                 forall m :: 0 <= m < k ==> filters[m].key != "monitored";
        assert filters[k] in filters;
        var j :| 0 <= j < |filters| && filters[j] == filter.value && forall m :: 0 <= m < j ==> !KeyIs("monitored")(filters[m]);
        FirstMatchUnique(filters, KeyIs("monitored"), j, k);
      }
    }
    !(filter.Some? && filter.value.value == "false")
  }

  /** A `monitored` filter holding anything but `false`, even `False`, lists monitored movies. */
  lemma OnlyExactFalseListsUnmonitored(value: string)
    requires value != "false"
    ensures MonitoredWanted([FilterResource("monitored", value)])
  {
    var filters := [FilterResource("monitored", value)];
    assert forall k :: 0 <= k < |filters| ==> filters[k].value == value;
  }

  /** The listing's one filter admits a movie exactly when its `Monitored` column is the
      wanted value. */
  lemma MonitoredFilterAdmits(f: PagingFilter, wanted: bool, m: Movie)
    requires f.kind == EqualFilter && f.property == "Monitored" && f.value == BoolValue(wanted)
    ensures SpecAdmits([f], m) <==> m.monitored == wanted
  {
    assert f in [f];
  }

  /** `GetCutoffUnmetMovies`: a spec sorted by `title` ascending unless the request sorts
      otherwise, carrying exactly one `Monitored` filter, answered by the repository's
      cutoff-unmet listing. */
  method GetCutoffUnmetMovies(resource: PagingResource, repo: MovieRepository, qs: seq<QualitiesBelowCutoff>, t: Related, supply: NameSupply)
    returns (pagingSpec: PagingSpec<Movie>, response: PagingResponse)
    modifies supply
    ensures fresh(pagingSpec)
    ensures pagingSpec.sortKey == if resource.sortKey.Some? then resource.sortKey else Some("title")
    ensures pagingSpec.sortDirection == if resource.sortDirection != Default then resource.sortDirection else Ascending
    ensures |pagingSpec.filterExpressions| == 1
    ensures var f := pagingSpec.filterExpressions[0];
            f.Valid() && f.idIndex == old(supply.next) && f.kind == EqualFilter &&
            f.table == TableName(MovieModel) && f.property == "Monitored" &&
            f.value == BoolValue(MonitoredWanted(resource.filters))
    ensures pagingSpec.records == Reduce(Window(repo.CutoffUnmetRows(t, qs, pagingSpec.filterExpressions), resource.page, resource.pageSize))
    ensures pagingSpec.totalRecords == |repo.CutoffUnmetRows(t, qs, pagingSpec.filterExpressions)|
    ensures response == ResponseOf(pagingSpec)
  {
    pagingSpec := MapToPagingSpec<Movie>(resource, Some("title"), Ascending);
    var filter := FirstWhere(resource.filters, KeyIs("monitored"));
    var monitored: PagingFilter;
    if filter.Some? && filter.value.value == "false" {
      monitored := new PagingFilter.WhereEqual(supply, Field(MovieModel, "Monitored"), BoolValue(false));
    } else {
      monitored := new PagingFilter.WhereEqual(supply, Field(MovieModel, "Monitored"), BoolValue(true));
    }
    pagingSpec.AddFilter(monitored);
    var recordsQuery, countQuery;
    pagingSpec, recordsQuery, countQuery := repo.MoviesWhereCutoffUnmet(pagingSpec, qs, t, supply);
    response := ResponseOf(pagingSpec);
  }
}

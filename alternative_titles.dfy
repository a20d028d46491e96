/** `AlternativeTitleRepository`: the other titles a movie is known by, each with the id it
    has at its source. The finders only read the table. */
module AlternativeTitleRepositories {
  import opened Wrappers
  import opened Tables
  import opened MovieEntities

  function FromSource(sourceId: int): AlternativeTitle -> bool {
    (a: AlternativeTitle) => a.sourceId == sourceId
  }

  function FromSources(sourceIds: seq<int>): AlternativeTitle -> bool {
    (a: AlternativeTitle) => a.sourceId in sourceIds
  }

  /** `FindBySourceId`: the first title, in table order, with this source id; none when no
      title has it. */
  function FindBySourceId(titles: seq<AlternativeTitle>, sourceId: int): (r: Option<AlternativeTitle>)
    ensures r.None? <==> forall a :: a in titles ==> a.sourceId != sourceId
    ensures r.Some? ==> r.value in titles && r.value.sourceId == sourceId
    ensures r.Some? ==> exists k :: 0 <= k < |titles| && titles[k] == r.value && forall m :: 0 <= m < k ==> titles[m].sourceId != sourceId
  {
    FirstWhere(titles, FromSource(sourceId))
  }

  /** `FindBySourceIds`: exactly the titles whose source id is listed; an empty list finds
      nothing. */
  function FindBySourceIds(titles: seq<AlternativeTitle>, sourceIds: seq<int>): (r: seq<AlternativeTitle>)
    ensures forall a :: a in r <==> a in titles && a.sourceId in sourceIds
    ensures sourceIds == [] ==> r == []
  {
    var r := Filter(titles, FromSources(sourceIds));
    assert sourceIds == [] ==> r == [] by {
      if sourceIds == [] {
        FilterNone(titles, FromSources(sourceIds));
      }
    }
    r
  }

  /** `FindByMovieId`: exactly the titles of the movie. */
  function FindByMovieId(titles: seq<AlternativeTitle>, movieId: int): (r: seq<AlternativeTitle>)
    ensures forall a :: a in r <==> a in titles && a.movieId == movieId
  {
    Filter(titles, TitleOf(movieId))
  }

  /** Looking one source id up is taking the first title a one-element list finds. */
  lemma FindBySourceIdIsFirstOfList(titles: seq<AlternativeTitle>, sourceId: int)
    ensures var found := FindBySourceIds(titles, [sourceId]);
            FindBySourceId(titles, sourceId) == if found == [] then None else Some(found[0])
  {
    FilterSame(titles, FromSources([sourceId]), FromSource(sourceId));
    FirstWhereIsFilterHead(titles, FromSource(sourceId));
  }
}

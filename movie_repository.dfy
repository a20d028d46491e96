/** `MovieRepository`: the movie table, its finders over the joined base query, the file-id
    update, and the two paged listings (movies without files, movies whose file is below
    the profile's cutoff). */
module MovieRepositories {
  import opened Wrappers
  import opened Text
  import opened Tables
  import opened SqlBuilders
  import opened BuilderExtensions
  import opened Paging
  import opened QualityCutoff
  import opened MovieEntities
  import opened MovieResults
  import opened MovieJoin

  const MoviesTable := "Movies"

  /** The text of a join: the joined table, `ON`, and the join condition. */
  function JoinOn(table: string, condition: string): string {
    table + " ON " + condition
  }

  /** The joins of `BuilderBase`: profile inner, alternative titles and files left. */
  const BaseJoins := [
    JoinClause(Inner, JoinOn("Profiles", "Profiles.Id = Movies.ProfileId")),
    JoinClause(Left, JoinOn("AlternativeTitles", "AlternativeTitles.MovieId = Movies.Id")),
    JoinClause(Left, JoinOn("MovieFiles", "MovieFiles.MovieId = Movies.Id"))]

  /** A row predicate that reads only the movie's own columns. */
  function OnMovie(q: Movie -> bool): Row -> bool {
    (row: Row) => q(row.movie)
  }

  /** The column a paging filter names, as the value a filter compares with. */
  function MovieColumn(m: Movie, property: string): Value {
    match property
    case "Id" => IntValue(m.id)
    case "Title" => TextValue(m.title)
    case "CleanTitle" => TextValue(m.cleanTitle)
    case "Path" => TextValue(m.path)
    case "TmdbId" => IntValue(m.tmdbId)
    case "TitleSlug" => TextValue(m.titleSlug)
    case "ProfileId" => IntValue(m.profileId)
    case "MovieFileId" => IntValue(m.movieFileId)
    case "Monitored" => BoolValue(m.monitored)
    case _ => NullValue
  }

  /** Every filter expression of a paging request admits the movie. */
  predicate SpecAdmits(filters: seq<PagingFilter>, m: Movie) {
    forall f :: f in filters ==> f.Admits(MovieColumn(m, f.property))
  }

  /** Paging filters see only a movie's own columns. */
  lemma AdmitsByColumns(filters: seq<PagingFilter>, a: Movie, b: Movie)
    requires Columns(a) == Columns(b) && SpecAdmits(filters, a)
    ensures SpecAdmits(filters, b)
  {
    forall f | f in filters ensures f.Admits(MovieColumn(b, f.property)) {
      assert MovieColumn(b, f.property) == MovieColumn(a, f.property);
    }
  }

  /** `BETWEEN @Start AND @End` on a nullable date: null never lies in a window. */
  predicate InWindow(d: Option<int>, start: int, end: int) {
    d.Some? && start <= d.value <= end
  }

  /** The raw clause of `MoviesBetweenDates`. */
  const BetweenDatesSql :=
    "(([Movies].[InCinemas] BETWEEN @Start AND @End) OR ([Movies].[PhysicalRelease] BETWEEN @Start AND @End))"

  /** Neither named parameter of the raw clause can be a generated name. */
  lemma FixedNamesNotGenerated(j: nat)
    ensures ParamName(j) != "Start" && ParamName(j) != "End"
  {
    assert ParamName(j)[0] == 'p';
  }

  /** The quality clause of a cutoff disjunct, evaluated on one joined row: the movie's
      profile is the pair's profile and its file's stored quality matches the pattern. */
  predicate QualityClauseHolds(qs: seq<QualitiesBelowCutoff>, row: Row) {
    exists i, j :: 0 <= i < |qs| && 0 <= j < |qs[i].qualityIds| &&
      row.movie.profileId == qs[i].profileId &&
      row.movieFile.Some? && ContainsLike(QualityPattern(qs[i].qualityIds[j]), row.movieFile.value.quality)
  }

  /** The WHERE of the cutoff listing as built: `MovieFileId = 0` AND the quality clause. */
  predicate CutoffUnmetRow(qs: seq<QualitiesBelowCutoff>, filters: seq<PagingFilter>, row: Row) {
    row.movie.movieFileId == 0 && QualityClauseHolds(qs, row) && SpecAdmits(filters, row.movie)
  }

  /** The WHERE of the without-files listing. */
  predicate WithoutFileRow(filters: seq<PagingFilter>, row: Row) {
    row.movie.movieFileId == 0 && SpecAdmits(filters, row.movie)
  }

  function WithoutFilePred(filters: seq<PagingFilter>): Row -> bool {
    (row: Row) => WithoutFileRow(filters, row)
  }

  function CutoffPred(qs: seq<QualitiesBelowCutoff>, filters: seq<PagingFilter>): Row -> bool {
    (row: Row) => CutoffUnmetRow(qs, filters, row)
  }

  function TmdbIdIs(tmdbid: int): Movie -> bool {
    (m: Movie) => m.tmdbId == tmdbid
  }

  function TitleSlugIs(slug: string): Movie -> bool {
    (m: Movie) => m.titleSlug == slug
  }

  function PathIs(path: string): Movie -> bool {
    (m: Movie) => m.path == path
  }

  /** The tables the base query can name: the movie table and the three it joins. */
  const BaseTables := ["Movies", "Profiles", "AlternativeTitles", "MovieFiles"]

  /** A join clause joins `table`: its text opens with the table's name and `ON`. */
  predicate JoinsTable(j: JoinClause, table: string) {
    |j.sql| >= |table| + 4 && j.sql[..|table| + 4] == table + " ON "
  }

  /** The without-files builder drawn with name `n`: the base joins and one conjunct
      `MovieFileId = @n` with 0 bound under `n`. */
  predicate WithoutFilesQuery(b: SqlBuilder, n: nat)
    reads b
  {
    b.joins == BaseJoins &&
    b.wheres == [Clause(And, FragmentSql(Equal, MoviesTable, "MovieFileId", ParamName(n)))] &&
    b.parameters == map[ParamName(n) := Param(IntValue(0), None)]
  }

  /** The cutoff builder drawn with name `n`: the without-files conjunct and the cutoff
      clause. */
  predicate CutoffUnmetQuery(b: SqlBuilder, n: nat, qs: seq<QualitiesBelowCutoff>)
    reads b
  {
    b.joins == BaseJoins &&
    b.wheres == [Clause(And, FragmentSql(Equal, MoviesTable, "MovieFileId", ParamName(n))),
                 Clause(And, CutoffWhere(MoviesTable, qs))] &&
    b.parameters == map[ParamName(n) := Param(IntValue(0), None)]
  }

  /** Stored file ids agree with the file table: a movie that has a file row records a
      non-zero `MovieFileId`. */
  predicate FileIdsConsistent(movies: seq<Movie>, t: Related) {
    forall m, f :: m in movies && f in t.movieFiles && f.movieId == m.id ==> m.movieFileId != 0
  }

  /** Some alternative title of movie `id` has a clean title in `titles`. */
  predicate AltTitleIn(t: Related, id: int, titles: seq<string>) {
    exists a :: a in t.alternativeTitles && a.movieId == id && a.cleanTitle in titles
  }

  /** `FindByTitles`' row predicate: either OR-ed `IN` clause holds. */
  predicate TitleRow(titles: seq<string>, row: Row) {
    row.movie.cleanTitle in titles || (row.altTitle.Some? && row.altTitle.value.cleanTitle in titles)
  }

  class MovieRepository {
    var movies: seq<Movie>

    constructor (movies: seq<Movie>)
      ensures this.movies == movies
    {
      this.movies := movies;
    }

    /** `BuilderBase`: a fresh builder carrying the three joins and nothing else. */
    static method BuilderBase() returns (b: SqlBuilder)
      ensures fresh(b)
      ensures b.joins == BaseJoins && b.selects == [] && b.wheres == [] && b.parameters == map[]
    {
      b := new SqlBuilder();
      var _ := b.Join(JoinOn("Profiles", "Profiles.Id = Movies.ProfileId"));
      var _ := b.LeftJoin(JoinOn("AlternativeTitles", "AlternativeTitles.MovieId = Movies.Id"));
      var _ := b.LeftJoin(JoinOn("MovieFiles", "MovieFiles.MovieId = Movies.Id"));
    }

    /** A finder on the movie's own columns: exactly the stored movies with a profile that
        satisfy `q`, one per id, each carrying the columns of a stored movie satisfying `q`. */
    function Find(t: Related, q: Movie -> bool): (r: seq<Movie>)
      reads this
      ensures forall i, j :: 0 <= i < j < |r| ==> r[i].id != r[j].id
      ensures forall id :: HasMovie(r, id) <==> StoredMatch(movies, t, q, id)
      ensures forall i :: 0 <= i < |r| ==> exists m :: m in movies && q(m) && Columns(m) == Columns(r[i])
    {
      var r := Query(movies, t, OnMovie(q));
      forall id ensures HasMovie(r, id) <==> StoredMatch(movies, t, q, id) {
        QueryByMovie(movies, t, OnMovie(q), q, id);
      }
      forall i | 0 <= i < |r| ensures exists m :: m in movies && q(m) && Columns(m) == Columns(r[i]) {
        var row :| row in JoinRows(movies, t) && OnMovie(q)(row) && Columns(row.movie) == Columns(r[i]);
      }
      r
    }

    /** `MoviePathExists`: some stored movie with a profile has exactly this path. */
    function MoviePathExists(t: Related, path: string): (r: bool)
      reads this
      ensures r <==> exists m :: m in movies && m.path == path && HasProfile(m, t)
    {
      var found := Find(t, (m: Movie) => m.path == path);
      if |found| > 0 then
        assert HasMovie(found, found[0].id);
        true
      else
        assert forall m :: m in movies && m.path == path && HasProfile(m, t) ==> HasMovie(found, m.id) by {
          forall m | m in movies && m.path == path && HasProfile(m, t) ensures HasMovie(found, m.id) {
            assert StoredMatch(movies, t, (m: Movie) => m.path == path, m.id);
          }
        }
        false
    }

    /** `FindByTitles`: the movies whose clean title, or one of whose alternative titles'
        clean titles, is in `titles`. */
    function FindByTitles(t: Related, titles: seq<string>): (r: seq<Movie>)
      reads this
      ensures forall i, j :: 0 <= i < j < |r| ==> r[i].id != r[j].id
      ensures forall id :: HasMovie(r, id) <==> TitleListed(movies, t, titles, id)
    {
      var p := (row: Row) => TitleRow(titles, row);
      var r := Query(movies, t, p);
      forall id ensures HasMovie(r, id) <==> TitleListed(movies, t, titles, id) {
        TitleMatches(movies, t, titles, p, id);
      }
      r
    }

    /** `FindByTitleInexact` as written: `instr(@cleanTitle, Id)`, so it returns the movies
        whose id's decimal text occurs inside `cleanTitle`, not those whose title does. */
    function FindByTitleInexact(t: Related, cleanTitle: string): (r: seq<Movie>)
      reads this
      ensures forall id :: HasMovie(r, id) <==>
                StoredMatch(movies, t, (m: Movie) => IsInfix(IntText(m.id), cleanTitle), id)
      ensures forall i :: 0 <= i < |r| ==> IsInfix(IntText(r[i].id), cleanTitle)
    {
      var q := (m: Movie) => IsInfix(IntText(m.id), cleanTitle);
      var r := Find(t, q);
      forall i | 0 <= i < |r| ensures IsInfix(IntText(r[i].id), cleanTitle) {
        var m :| m in movies && q(m) && Columns(m) == Columns(r[i]);
      }
      r
    }

    /** `FindByTmdbId`: the first movie with this TMDb id, if any. */
    function FindByTmdbId(t: Related, tmdbid: int): (r: Option<Movie>)
      reads this
      ensures r.None? <==> !exists m :: m in movies && m.tmdbId == tmdbid && HasProfile(m, t)
      ensures r.Some? ==> r.value.tmdbId == tmdbid
      ensures r.Some? ==> exists k :: FirstStored(movies, t, TmdbIdIs(tmdbid), k) && Columns(movies[k]) == Columns(r.value)
    {
      FirstOf(t, TmdbIdIs(tmdbid))
    }

    /** `FindByTmdbId(list)`: the movies whose TMDb id is in the list. */
    function FindByTmdbIds(t: Related, tmdbids: seq<int>): (r: seq<Movie>)
      reads this
      ensures forall id :: HasMovie(r, id) <==> StoredMatch(movies, t, (m: Movie) => m.tmdbId in tmdbids, id)
      ensures forall i :: 0 <= i < |r| ==> r[i].tmdbId in tmdbids
    {
      var q := (m: Movie) => m.tmdbId in tmdbids;
      var r := Find(t, q);
      forall i | 0 <= i < |r| ensures r[i].tmdbId in tmdbids {
        var m :| m in movies && q(m) && Columns(m) == Columns(r[i]);
      }
      r
    }

    /** `GetMoviesByFileId`: the movies recording this file id. */
    function GetMoviesByFileId(t: Related, fileId: int): (r: seq<Movie>)
      reads this
      ensures forall id :: HasMovie(r, id) <==> StoredMatch(movies, t, (m: Movie) => m.movieFileId == fileId, id)
      ensures forall i :: 0 <= i < |r| ==> r[i].movieFileId == fileId
    {
      var q := (m: Movie) => m.movieFileId == fileId;
      var r := Find(t, q);
      forall i | 0 <= i < |r| ensures r[i].movieFileId == fileId {
        var m :| m in movies && q(m) && Columns(m) == Columns(r[i]);
      }
      r
    }

    /** `FindByTitleSlug`: the first movie with this slug, if any. */
    function FindByTitleSlug(t: Related, slug: string): (r: Option<Movie>)
      reads this
      ensures r.None? <==> !exists m :: m in movies && m.titleSlug == slug && HasProfile(m, t)
      ensures r.Some? ==> r.value.titleSlug == slug
      ensures r.Some? ==> exists k :: FirstStored(movies, t, TitleSlugIs(slug), k) && Columns(movies[k]) == Columns(r.value)
    {
      FirstOf(t, TitleSlugIs(slug))
    }

    /** `FindByPath`: the first movie with this path, if any. */
    function FindByPath(t: Related, path: string): (r: Option<Movie>)
      reads this
      ensures r.None? <==> !exists m :: m in movies && m.path == path && HasProfile(m, t)
      ensures r.Some? ==> r.value.path == path
      ensures r.Some? ==> exists k :: FirstStored(movies, t, PathIs(path), k) && Columns(movies[k]) == Columns(r.value)
    {
      FirstOf(t, PathIs(path))
    }

    /** `Query(...).FirstOrDefault()` for a finder on the movie's own columns: the movie
        the first joined row brings, which is the first stored movie that satisfies `q` and
        has a profile. */
    function FirstOf(t: Related, q: Movie -> bool): (r: Option<Movie>)
      reads this
      ensures r.None? <==> !exists m :: m in movies && q(m) && HasProfile(m, t)
      ensures r.Some? ==> exists m :: m in movies && q(m) && Columns(m) == Columns(r.value)
      ensures r.Some? ==> exists k :: FirstStored(movies, t, q, k) && Columns(movies[k]) == Columns(r.value)
    {
      var found := Find(t, q);
      if |found| > 0 then
        assert found == Query(movies, t, OnMovie(q));
        QueryHead(movies, t, OnMovie(q), q);
        Some(found[0])
      else
        assert forall m :: m in movies && q(m) && HasProfile(m, t) ==> HasMovie(found, m.id) by {
          forall m | m in movies && q(m) && HasProfile(m, t) ensures HasMovie(found, m.id) {
            assert StoredMatch(movies, t, q, m.id);
          }
        }
        None
    }

    /** `MoviesBetweenDates`: a movie is listed when its cinema or physical release date
        lies in `[start, end]`; unless unmonitored movies are included it must also be
        monitored. */
    function MoviesBetweenDates(t: Related, start: int, end: int, includeUnmonitored: bool): (r: seq<Movie>)
      reads this
      ensures forall id :: HasMovie(r, id) <==>
                StoredMatch(movies, t, (m: Movie) => (InWindow(m.inCinemas, start, end) || InWindow(m.physicalRelease, start, end)) &&
                                                     (includeUnmonitored || m.monitored), id)
      ensures forall i :: 0 <= i < |r| ==>
                (InWindow(r[i].inCinemas, start, end) || InWindow(r[i].physicalRelease, start, end)) &&
                (includeUnmonitored || r[i].monitored)
    {
      var q := (m: Movie) => (InWindow(m.inCinemas, start, end) || InWindow(m.physicalRelease, start, end)) &&
                             (includeUnmonitored || m.monitored);
      var r := Find(t, q);
      forall i | 0 <= i < |r| ensures q(r[i]) {
        var m :| m in movies && q(m) && Columns(m) == Columns(r[i]);
      }
      r
    }

    /** `MoviesWithFiles` as written: `WhereNotNull(MovieFileId)` on a column that is never
        null, and the argument unused, so every movie with a profile is listed. */
    function MoviesWithFiles(t: Related, movieId: int): (r: seq<Movie>)
      reads this
      ensures forall id :: HasMovie(r, id) <==> exists m :: m in movies && m.id == id && HasProfile(m, t)
    {
      var r := Find(t, (m: Movie) => true);
      forall id ensures HasMovie(r, id) <==> exists m :: m in movies && m.id == id && HasProfile(m, t) {
        assert StoredMatch(movies, t, (m: Movie) => true, id) <==> exists m :: m in movies && m.id == id && HasProfile(m, t);
      }
      r
    }

    /** The movies of the without-files listing, before paging. */
    function WithoutFiles(t: Related, filters: seq<PagingFilter>): (r: seq<Movie>)
      reads this
      ensures forall i, j :: 0 <= i < j < |r| ==> r[i].id != r[j].id
      ensures forall id :: HasMovie(r, id) <==>
                StoredMatch(movies, t, (m: Movie) => m.movieFileId == 0 && SpecAdmits(filters, m), id)
      ensures forall i :: 0 <= i < |r| ==> r[i].movieFileId == 0 && SpecAdmits(filters, r[i])
    {
      var p := WithoutFilePred(filters);
      var r := Query(movies, t, p);
      forall id ensures HasMovie(r, id) <==> StoredMatch(movies, t, (m: Movie) => m.movieFileId == 0 && SpecAdmits(filters, m), id) {
        QueryByMovie(movies, t, p, (m: Movie) => m.movieFileId == 0 && SpecAdmits(filters, m), id);
      }
      forall i | 0 <= i < |r| ensures r[i].movieFileId == 0 && SpecAdmits(filters, r[i]) {
        var row :| row in JoinRows(movies, t) && p(row) && Columns(row.movie) == Columns(r[i]);
        AdmitsByColumns(filters, row.movie, r[i]);
      }
      r
    }

    /** The joined rows the without-files query reads before paging: the listing is their
        fold, and the count is their number. */
    function WithoutFilesRows(t: Related, filters: seq<PagingFilter>): (r: seq<Row>)
      reads this
      ensures forall row :: row in r <==> row in JoinRows(movies, t) && WithoutFileRow(filters, row)
      ensures Reduce(r) == WithoutFiles(t, filters)
    {
      var r := Filter(JoinRows(movies, t), WithoutFilePred(filters));
      assert WithoutFiles(t, filters) == Query(movies, t, WithoutFilePred(filters));
      r
    }

    /** The movies of the cutoff-unmet listing before paging, with the clause's
        `[MovieFile].[Quality]` read as the quality column of the joined `MovieFiles` row
        and `()` read as an empty disjunction. */
    function CutoffUnmet(t: Related, qs: seq<QualitiesBelowCutoff>, filters: seq<PagingFilter>): (r: seq<Movie>)
      reads this
      ensures forall id :: HasMovie(r, id) <==> RowMatches(JoinRows(movies, t), (row: Row) => CutoffUnmetRow(qs, filters, row), id)
      ensures forall i :: 0 <= i < |r| ==> r[i].movieFileId == 0
    {
      var p := CutoffPred(qs, filters);
      var r := Query(movies, t, p);
      forall i | 0 <= i < |r| ensures r[i].movieFileId == 0 {
        var row :| row in JoinRows(movies, t) && p(row) && Columns(row.movie) == Columns(r[i]);
      }
      r
    }

    /** The joined rows the cutoff query reads before paging. */
    function CutoffUnmetRows(t: Related, qs: seq<QualitiesBelowCutoff>, filters: seq<PagingFilter>): (r: seq<Row>)
      reads this
      ensures forall row :: row in r <==> row in JoinRows(movies, t) && CutoffUnmetRow(qs, filters, row)
      ensures Reduce(r) == CutoffUnmet(t, qs, filters)
    {
      var r := Filter(JoinRows(movies, t), CutoffPred(qs, filters));
      assert CutoffUnmet(t, qs, filters) == Query(movies, t, CutoffPred(qs, filters));
      r
    }

    /** `GetMoviesWithoutFilesBuilder`: the base builder plus `MovieFileId = @p` with 0 bound. */
    static method GetMoviesWithoutFilesBuilder(supply: NameSupply) returns (b: SqlBuilder)
      modifies supply
      ensures fresh(b) && b.FreshFor(supply) && supply.next == old(supply.next) + 1
      ensures b.joins == BaseJoins && b.selects == []
      ensures b.wheres == [Clause(And, FragmentSql(Equal, MoviesTable, "MovieFileId", ParamName(old(supply.next))))]
      ensures b.parameters == map[ParamName(old(supply.next)) := Param(IntValue(0), None)]
    {
      b := BuilderBase();
      b := WhereEqual(b, supply, Field(MovieModel, "MovieFileId"), IntValue(0));
    }

    /** `GetMoviesWhereCutoffUnmetBuilder`: the without-files clause AND the cutoff clause. */
    static method GetMoviesWhereCutoffUnmetBuilder(supply: NameSupply, qs: seq<QualitiesBelowCutoff>) returns (b: SqlBuilder)
      modifies supply
      ensures fresh(b) && b.FreshFor(supply) && supply.next == old(supply.next) + 1
      ensures b.joins == BaseJoins && b.selects == []
      ensures b.wheres == [Clause(And, FragmentSql(Equal, MoviesTable, "MovieFileId", ParamName(old(supply.next)))),
                           Clause(And, CutoffWhere(MoviesTable, qs))]
      ensures b.parameters == map[ParamName(old(supply.next)) := Param(IntValue(0), None)]
    {
      b := BuilderBase();
      b := WhereEqual(b, supply, Field(MovieModel, "MovieFileId"), IntValue(0));
      var clause := BuildQualityCutoffWhereClause(MoviesTable, qs);
      b := b.Where(clause, map[]);
      assert b.parameters == map[ParamName(old(supply.next)) := Param(IntValue(0), None)] + map[];
    }

    /** The builder of `MoviesBetweenDates`: the raw date clause binding `Start` and `End`,
        then `Monitored = 1` only when unmonitored movies are excluded. */
    static method MoviesBetweenDatesBuilder(supply: NameSupply, start: int, end: int, includeUnmonitored: bool) returns (b: SqlBuilder)
      modifies supply
      ensures fresh(b) && b.FreshFor(supply) && b.joins == BaseJoins
      ensures includeUnmonitored ==> supply.next == old(supply.next) && b.wheres == [Clause(And, BetweenDatesSql)]
      ensures !includeUnmonitored ==>
                && supply.next == old(supply.next) + 1
                && b.wheres == [Clause(And, BetweenDatesSql),
                                Clause(And, FragmentSql(Equal, MoviesTable, "Monitored", ParamName(old(supply.next))))]
                && ParamName(old(supply.next)) in b.parameters
                && b.parameters[ParamName(old(supply.next))].value == IntValue(1)
      ensures "Start" in b.parameters && b.parameters["Start"].value == IntValue(start)
      ensures "End" in b.parameters && b.parameters["End"].value == IntValue(end)
    {
      b := BuilderBase();
      var dates := map["Start" := Param(IntValue(start), None), "End" := Param(IntValue(end), None)];
      b := b.Where(BetweenDatesSql, dates);
      forall j: nat | supply.next <= j ensures ParamName(j) !in b.parameters {
        FixedNamesNotGenerated(j);
      }
      if !includeUnmonitored {
        b := WhereEqual(b, supply, Field(MovieModel, "Monitored"), IntValue(1));
        FixedNamesNotGenerated(old(supply.next));
      }
    }

    /** `SetFileId`: the movie with id `movieId` records `fileId`; every other column and
        every other movie stay as they were. */
    method SetFileId(fileId: int, movieId: int)
      modifies this
      ensures |movies| == |old(movies)|
      ensures forall k :: 0 <= k < |movies| ==>
                movies[k] == if old(movies)[k].id == movieId then old(movies)[k].(movieFileId := fileId) else old(movies)[k]
    {
      var i := 0;
      while i < |movies|
        invariant 0 <= i <= |movies| && |movies| == |old(movies)|
        invariant forall k :: 0 <= k < i ==>
                    movies[k] == if old(movies)[k].id == movieId then old(movies)[k].(movieFileId := fileId) else old(movies)[k]
        invariant forall k :: i <= k < |movies| ==> movies[k] == old(movies)[k]
      {
        if movies[i].id == movieId {
          movies := movies[i := movies[i].(movieFileId := fileId)];
        }
        i := i + 1;
      }
    }

    /** The two queries of the without-files listing, each from a fresh builder: the
        records query selects `*`, the count query `COUNT(*)`, and they differ only in the
        name their one parameter is drawn under. */
    static method WithoutFilesQueries(supply: NameSupply) returns (recordsQuery: SqlBuilder, countQuery: SqlBuilder)
      modifies supply
      ensures fresh(recordsQuery) && fresh(countQuery) && recordsQuery != countQuery
      ensures supply.next == old(supply.next) + 2
      ensures recordsQuery.selects == ["*"] && WithoutFilesQuery(recordsQuery, old(supply.next))
      ensures countQuery.selects == ["COUNT(*)"] && WithoutFilesQuery(countQuery, old(supply.next) + 1)
    {
      recordsQuery := GetMoviesWithoutFilesBuilder(supply);
      recordsQuery := SelectAll(recordsQuery);
      assert WithoutFilesQuery(recordsQuery, old(supply.next));
      countQuery := GetMoviesWithoutFilesBuilder(supply);
      countQuery := SelectCount(countQuery);
    }

    /** The two queries of the cutoff listing, as for the without-files listing. */
    static method CutoffUnmetQueries(supply: NameSupply, qs: seq<QualitiesBelowCutoff>) returns (recordsQuery: SqlBuilder, countQuery: SqlBuilder)
      modifies supply
      ensures fresh(recordsQuery) && fresh(countQuery) && recordsQuery != countQuery
      ensures supply.next == old(supply.next) + 2
      ensures recordsQuery.selects == ["*"] && CutoffUnmetQuery(recordsQuery, old(supply.next), qs)
      ensures countQuery.selects == ["COUNT(*)"] && CutoffUnmetQuery(countQuery, old(supply.next) + 1, qs)
    {
      recordsQuery := GetMoviesWhereCutoffUnmetBuilder(supply, qs);
      recordsQuery := SelectAll(recordsQuery);
      assert CutoffUnmetQuery(recordsQuery, old(supply.next), qs);
      countQuery := GetMoviesWhereCutoffUnmetBuilder(supply, qs);
      countQuery := SelectCount(countQuery);
    }

    /** `MoviesWithoutFiles`: the records are the page the LIMIT/OFFSET window cuts from the
        joined rows, folded into movies; the total is `COUNT(*)` over the same joined rows.
        Records and total come from two fresh builders that differ only in their select
        and in the name their one parameter is drawn under. */
    method MoviesWithoutFiles(pagingSpec: PagingSpec<Movie>, t: Related, supply: NameSupply)
      returns (r: PagingSpec<Movie>, recordsQuery: SqlBuilder, countQuery: SqlBuilder)
      modifies pagingSpec, supply
      ensures r == pagingSpec
      ensures pagingSpec.records ==
                Reduce(Window(WithoutFilesRows(t, pagingSpec.filterExpressions), pagingSpec.page, pagingSpec.pageSize))
      ensures pagingSpec.totalRecords == |WithoutFilesRows(t, pagingSpec.filterExpressions)|
      ensures pagingSpec.page == old(pagingSpec.page) && pagingSpec.pageSize == old(pagingSpec.pageSize)
      ensures pagingSpec.sortKey == old(pagingSpec.sortKey) && pagingSpec.sortDirection == old(pagingSpec.sortDirection)
      ensures pagingSpec.filterExpressions == old(pagingSpec.filterExpressions)
      ensures fresh(recordsQuery) && fresh(countQuery) && recordsQuery != countQuery
      ensures supply.next == old(supply.next) + 2
      ensures recordsQuery.selects == ["*"] && WithoutFilesQuery(recordsQuery, old(supply.next))
      ensures countQuery.selects == ["COUNT(*)"] && WithoutFilesQuery(countQuery, old(supply.next) + 1)
    {
      var rows := WithoutFilesRows(t, pagingSpec.filterExpressions);
      recordsQuery, countQuery := WithoutFilesQueries(supply);
      pagingSpec.records := Reduce(Window(rows, pagingSpec.page, pagingSpec.pageSize));
      pagingSpec.totalRecords := |rows|;
      r := pagingSpec;
    }

    /** `MoviesWhereCutoffUnmet`: page and total as in `MoviesWithoutFiles`, over the rows
        the cutoff clause keeps. */
    method MoviesWhereCutoffUnmet(pagingSpec: PagingSpec<Movie>, qs: seq<QualitiesBelowCutoff>, t: Related, supply: NameSupply)
      returns (r: PagingSpec<Movie>, recordsQuery: SqlBuilder, countQuery: SqlBuilder)
      modifies pagingSpec, supply
      ensures r == pagingSpec
      ensures pagingSpec.records ==
                Reduce(Window(CutoffUnmetRows(t, qs, pagingSpec.filterExpressions), pagingSpec.page, pagingSpec.pageSize))
      ensures pagingSpec.totalRecords == |CutoffUnmetRows(t, qs, pagingSpec.filterExpressions)|
      ensures pagingSpec.page == old(pagingSpec.page) && pagingSpec.pageSize == old(pagingSpec.pageSize)
      ensures pagingSpec.sortKey == old(pagingSpec.sortKey) && pagingSpec.sortDirection == old(pagingSpec.sortDirection)
      ensures pagingSpec.filterExpressions == old(pagingSpec.filterExpressions)
      ensures fresh(recordsQuery) && fresh(countQuery) && recordsQuery != countQuery
      ensures supply.next == old(supply.next) + 2
      ensures recordsQuery.selects == ["*"] && CutoffUnmetQuery(recordsQuery, old(supply.next), qs)
      ensures countQuery.selects == ["COUNT(*)"] && CutoffUnmetQuery(countQuery, old(supply.next) + 1, qs)
    {
      var rows := CutoffUnmetRows(t, qs, pagingSpec.filterExpressions);
      recordsQuery, countQuery := CutoffUnmetQueries(supply, qs);
      pagingSpec.records := Reduce(Window(rows, pagingSpec.page, pagingSpec.pageSize));
      pagingSpec.totalRecords := |rows|;
      r := pagingSpec;
    }
  }

  /** A stored movie whose title or alternative title is listed. */
  predicate TitleListed(movies: seq<Movie>, t: Related, titles: seq<string>, id: int) {
    exists m :: m in movies && m.id == id && HasProfile(m, t) && (m.cleanTitle in titles || AltTitleIn(t, m.id, titles))
  }

  /** The two alternatives of `FindByTitles`, on the joined rows. */
  lemma TitleMatches(movies: seq<Movie>, t: Related, titles: seq<string>, p: Row -> bool, id: int)
    requires forall row :: p(row) == TitleRow(titles, row)
    ensures RowMatches(JoinRows(movies, t), p, id) <==> TitleListed(movies, t, titles, id)
  {
    if TitleListed(movies, t, titles, id) {
      TitleListedHasRow(movies, t, titles, p, id);
    }
    if RowMatches(JoinRows(movies, t), p, id) {
      var row :| row in JoinRows(movies, t) && p(row) && row.movie.id == id;
      assert HasProfile(row.movie, t);
      if row.altTitle.Some? && row.altTitle.value.cleanTitle in titles {
        assert AltTitleIn(t, row.movie.id, titles);
      }
    }
  }

  lemma TitleListedHasRow(movies: seq<Movie>, t: Related, titles: seq<string>, p: Row -> bool, id: int)
    requires forall row :: p(row) == TitleRow(titles, row)
    requires TitleListed(movies, t, titles, id)
    ensures RowMatches(JoinRows(movies, t), p, id)
  {
    var m :| m in movies && m.id == id && HasProfile(m, t) && (m.cleanTitle in titles || AltTitleIn(t, m.id, titles));
    if m.cleanTitle in titles {
      MovieHasRow(movies, t, m);
      var row :| row in JoinRows(movies, t) && row.movie == m;
      assert p(row);
    } else {
      var pr :| pr in t.profiles && pr.id == m.profileId;
      var files := LeftMatches(t.movieFiles, FileOf(m.id));
      assert files[0] in files;
      var a :| a in t.alternativeTitles && a.movieId == m.id && a.cleanTitle in titles;
      var row := Row(m, pr, Some(a), files[0]);
      assert Joins(row, t);
      assert row in JoinRows(movies, t) && p(row);
    }
  }

  /** A text holding no digit does not contain a number's text. */
  lemma NoDigitNoNumber(title: string, n: int)
    requires forall k :: 0 <= k < |title| ==> !IsDigit(title[k])
    ensures !IsInfix(IntText(n), title)
  {
    var s := IntText(n);
    assert IsDigit(s[|s| - 1]);
    forall k | 0 <= k <= |title| - |s| ensures !OccursAt(s, title, k) {
      assert title[k..k + |s|][|s| - 1] == title[k + |s| - 1];
    }
  }

  /** A title with no digit in it finds no movie by `FindByTitleInexact`: a movie id's
      text always holds a digit. */
  lemma TitleInexactNeedsDigit(repo: MovieRepository, t: Related, cleanTitle: string)
    requires forall k :: 0 <= k < |cleanTitle| ==> !IsDigit(cleanTitle[k])
    ensures repo.FindByTitleInexact(t, cleanTitle) == []
  {
    forall n: int ensures !IsInfix(IntText(n), cleanTitle) {
      NoDigitNoNumber(cleanTitle, n);
    }
  }

  /** The base query names the movie table and the three tables it joins, and no table
      called `MovieFile`. */
  lemma BaseJoinsTables()
    ensures MoviesTable == BaseTables[0] && JoinsTable(BaseJoins[0], BaseTables[1])
    ensures JoinsTable(BaseJoins[1], BaseTables[2]) && JoinsTable(BaseJoins[2], BaseTables[3])
    ensures "MovieFile" !in BaseTables
  {
    forall k | 0 <= k < 3 ensures JoinsTable(BaseJoins[k], BaseTables[k + 1]) {
      var table := BaseTables[k + 1];
      assert BaseJoins[k].sql[..|table| + 4] == (table + " ON ")[..|table| + 4];
    }
  }

  /** The cutoff clause as built cannot be evaluated against the base query: without a
      (profile, quality id) pair it is the empty `()`, and with one it reads the column
      `[MovieFile].[Quality]` of a table the query neither selects from nor joins (see
      `BaseJoinsTables`: the join is `MovieFiles`). */
  lemma CutoffClauseNamesUnjoinedTable(qs: seq<QualitiesBelowCutoff>)
    ensures PairCount(qs) == 0 ==> CutoffWhere(MoviesTable, qs) == "()"
    ensures PairCount(qs) > 0 ==> IsInfix("[MovieFile].[Quality]", CutoffWhere(MoviesTable, qs))
  {
    if PairCount(qs) > 0 {
      var i, j := SomePair(qs);
      var p, q := qs[i].profileId, qs[i].qualityIds[j];
      ClauseReadsMovieFile(MoviesTable, p, q);
      InfixTransitive("[MovieFile].[Quality]", CutoffClause(MoviesTable, p, q), CutoffWhere(MoviesTable, qs));
    }
  }

  /** A position of some (profile, quality id) pair, when there is one. */
  lemma {:induction false} SomePair(qs: seq<QualitiesBelowCutoff>) returns (i: int, j: int)
    requires PairCount(qs) > 0
    ensures 0 <= i < |qs| && 0 <= j < |qs[i].qualityIds|
    decreases |qs|
  {
    var init := qs[..|qs| - 1];
    if |qs[|qs| - 1].qualityIds| > 0 {
      i, j := |qs| - 1, 0;
    } else {
      i, j := SomePair(init);
      assert init[i] == qs[i];
    }
  }

  /** Read as intended, the cutoff clause without any pair is an empty disjunction: the
      listing is empty. */
  lemma CutoffUnmetWithoutPairs(repo: MovieRepository, t: Related, qs: seq<QualitiesBelowCutoff>, filters: seq<PagingFilter>)
    requires forall i :: 0 <= i < |qs| ==> qs[i].qualityIds == []
    ensures repo.CutoffUnmet(t, qs, filters) == []
  {
    var rows := JoinRows(repo.movies, t);
    forall row | row in rows ensures !CutoffPred(qs, filters)(row) {
      assert !QualityClauseHolds(qs, row);
    }
    FilterNone(rows, CutoffPred(qs, filters));
    assert repo.CutoffUnmetRows(t, qs, filters) == [];
  }

  /** Every movie on a page of the without-files listing is in the listing, and the total
      is never below the number of movies listed: it counts joined rows. */
  lemma WithoutFilesPageListed(repo: MovieRepository, t: Related, filters: seq<PagingFilter>, page: int, pageSize: int, id: int)
    requires HasMovie(Reduce(Window(repo.WithoutFilesRows(t, filters), page, pageSize)), id)
    ensures HasMovie(repo.WithoutFiles(t, filters), id)
    ensures |repo.WithoutFiles(t, filters)| <= |repo.WithoutFilesRows(t, filters)|
  {
    WindowKeepsIds(repo.WithoutFilesRows(t, filters), page, pageSize, id);
  }

  /** The same for the cutoff listing. */
  lemma CutoffUnmetPageListed(repo: MovieRepository, t: Related, qs: seq<QualitiesBelowCutoff>, filters: seq<PagingFilter>, page: int, pageSize: int, id: int)
    requires HasMovie(Reduce(Window(repo.CutoffUnmetRows(t, qs, filters), page, pageSize)), id)
    ensures HasMovie(repo.CutoffUnmet(t, qs, filters), id)
    ensures |repo.CutoffUnmet(t, qs, filters)| <= |repo.CutoffUnmetRows(t, qs, filters)|
  {
    WindowKeepsIds(repo.CutoffUnmetRows(t, qs, filters), page, pageSize, id);
  }

  /** The cutoff listing is empty whenever stored file ids agree with the file table:
      `MovieFileId = 0` leaves only movies without a file row, whose null file cannot
      satisfy the quality clause. */
  lemma CutoffUnmetEmptyWhenConsistent(repo: MovieRepository, t: Related, qs: seq<QualitiesBelowCutoff>, filters: seq<PagingFilter>)
    requires FileIdsConsistent(repo.movies, t)
    ensures repo.CutoffUnmet(t, qs, filters) == []
  {
    var r := repo.CutoffUnmet(t, qs, filters);
    forall row | row in JoinRows(repo.movies, t) ensures row.movieFile.Some? ==> row.movie.movieFileId != 0 {
      if row.movieFile.Some? {
        assert LeftJoined(row.movieFile, t.movieFiles, FileOf(row.movie.id));
      }
    }
  }

  /** After `SetFileId(fileId, id)`, the movie with that id is found by `GetMoviesByFileId`
      whenever it exists and has a profile. */
  lemma SetFileIdThenFound(before: seq<Movie>, after: seq<Movie>, t: Related, fileId: int, movieId: int, k: int)
    requires |after| == |before| && 0 <= k < |before| && before[k].id == movieId && HasProfile(before[k], t)
    requires forall i :: 0 <= i < |after| ==>
               after[i] == if before[i].id == movieId then before[i].(movieFileId := fileId) else before[i]
    ensures StoredMatch(after, t, (m: Movie) => m.movieFileId == fileId, movieId)
  {
    assert after[k] in after && after[k].movieFileId == fileId && after[k].id == movieId;
    assert HasProfile(after[k], t);
  }
}

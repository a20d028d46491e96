/** The rows the movie repository's base query reads: every movie inner-joined to its
    profile and left-joined to its alternative titles and its movie files. A left join
    gives a null partner when the movie has none. */
module MovieJoin {
  import opened Wrappers
  import opened Tables
  import opened MovieEntities
  import opened MovieResults

  /** The other tables the base query joins. */
  datatype Related = Related(profiles: seq<Profile>, alternativeTitles: seq<AlternativeTitle>, movieFiles: seq<MovieFile>)

  /** `Profiles ON Profiles.Id = Movies.ProfileId`. */
  function ProfileIs(profileId: int): Profile -> bool {
    (p: Profile) => p.id == profileId
  }

  /** `o` is a partner a LEFT JOIN on `p` can produce: a matching row, or null when no row
      matches. */
  predicate LeftJoined<T(==,!new)>(o: Option<T>, xs: seq<T>, p: T -> bool) {
    (o.Some? && o.value in xs && p(o.value)) || (o.None? && forall x :: x in xs ==> !p(x))
  }

  /** The partners a LEFT JOIN on `p` produces, in table order. */
  function LeftMatches<T(==,!new)>(xs: seq<T>, p: T -> bool): (r: seq<Option<T>>)
    ensures |r| > 0
    ensures forall o :: o in r <==> LeftJoined(o, xs, p)
  {
    var ms := Filter(xs, p);
    if ms == [] then [None]
    else
      var r := seq(|ms|, k requires 0 <= k < |ms| => Some(ms[k]));
      assert ms[0] in ms;
      assert forall o :: o in r <==> o.Some? && o.value in ms by {
        forall o: Option<T> | o.Some? && o.value in ms ensures o in r {
          var k :| 0 <= k < |ms| && ms[k] == o.value;
          assert r[k] == o;
        }
      }
      r
  }

  /** The rows of movie `m` with one profile and each file partner of `files`. */
  function RowsWithFiles(m: Movie, p: Profile, a: Option<AlternativeTitle>, files: seq<Option<MovieFile>>): (r: seq<Row>)
    ensures forall row :: row in r <==> row.movie == m && row.profile == p && row.altTitle == a && row.movieFile in files
  {
    var r := seq(|files|, k requires 0 <= k < |files| => Row(m, p, a, files[k]));
    assert forall row :: row in r ==> row.movieFile in files;
    assert forall f :: f in files ==> Row(m, p, a, f) in r by {
      forall f | f in files ensures Row(m, p, a, f) in r {
        var k :| 0 <= k < |files| && files[k] == f;
        assert r[k] == Row(m, p, a, f);
      }
    }
    r
  }

  /** The rows of movie `m` with one profile, each title partner and each file partner. */
  function RowsWithTitles(m: Movie, p: Profile, titles: seq<Option<AlternativeTitle>>, files: seq<Option<MovieFile>>): (r: seq<Row>)
    ensures forall row :: row in r <==> row.movie == m && row.profile == p && row.altTitle in titles && row.movieFile in files
  {
    if titles == [] then []
    else
      assert forall a :: a in titles <==> a == titles[0] || a in titles[1..] by {
        assert titles == [titles[0]] + titles[1..];
      }
      RowsWithFiles(m, p, titles[0], files) + RowsWithTitles(m, p, titles[1..], files)
  }

  /** The rows of movie `m`: each joined profile with each title and file partner. */
  function RowsWithProfiles(m: Movie, profiles: seq<Profile>, titles: seq<Option<AlternativeTitle>>, files: seq<Option<MovieFile>>): (r: seq<Row>)
    ensures forall row :: row in r <==> row.movie == m && row.profile in profiles && row.altTitle in titles && row.movieFile in files
  {
    if profiles == [] then []
    else
      assert forall p :: p in profiles <==> p == profiles[0] || p in profiles[1..] by {
        assert profiles == [profiles[0]] + profiles[1..];
      }
      RowsWithTitles(m, profiles[0], titles, files) + RowsWithProfiles(m, profiles[1..], titles, files)
  }

  /** A row the base query can produce for the movie it carries. */
  predicate Joins(row: Row, t: Related) {
    row.profile in t.profiles && ProfileIs(row.movie.profileId)(row.profile) &&
    LeftJoined(row.altTitle, t.alternativeTitles, TitleOf(row.movie.id)) &&
    LeftJoined(row.movieFile, t.movieFiles, FileOf(row.movie.id))
  }

  /** The rows of one movie. */
  function MovieRows(m: Movie, t: Related): (r: seq<Row>)
    ensures forall row :: row in r <==> row.movie == m && Joins(row, t)
  {
    RowsWithProfiles(m, Filter(t.profiles, ProfileIs(m.profileId)),
                     LeftMatches(t.alternativeTitles, TitleOf(m.id)),
                     LeftMatches(t.movieFiles, FileOf(m.id)))
  }

  /** The rows of the base query over the movie table, movie by movie. */
  function JoinRows(movies: seq<Movie>, t: Related): (r: seq<Row>)
    ensures forall row :: row in r <==> row.movie in movies && Joins(row, t)
  {
    if movies == [] then []
    else
      assert forall m :: m in movies <==> m == movies[0] || m in movies[1..] by {
        assert movies == [movies[0]] + movies[1..];
      }
      MovieRows(movies[0], t) + JoinRows(movies[1..], t)
  }

  /** A movie's profile row exists, so the inner join keeps it. */
  predicate HasProfile(m: Movie, t: Related) {
    exists p :: p in t.profiles && p.id == m.profileId
  }

  /** A movie appears in the join exactly when its profile exists. */
  lemma {:induction false} MovieHasRow(movies: seq<Movie>, t: Related, m: Movie)
    requires m in movies
    ensures HasProfile(m, t) <==> exists row :: row in JoinRows(movies, t) && row.movie == m
  {
    if HasProfile(m, t) {
      var p :| p in t.profiles && p.id == m.profileId;
      var titles := LeftMatches(t.alternativeTitles, TitleOf(m.id));
      var files := LeftMatches(t.movieFiles, FileOf(m.id));
      var row := Row(m, p, titles[0], files[0]);
      assert titles[0] in titles && files[0] in files;
      assert Joins(row, t);
      assert row in JoinRows(movies, t);
    }
  }

  /** Some row of `rows` satisfies `p` and carries movie id `id`. */
  predicate RowMatches(rows: seq<Row>, p: Row -> bool, id: int) {
    exists row :: row in rows && p(row) && row.movie.id == id
  }

  lemma FilterHasId(rows: seq<Row>, p: Row -> bool, id: int)
    ensures HasId(Filter(rows, p), id) <==> RowMatches(rows, p, id)
  {
    var kept := Filter(rows, p);
    if HasId(kept, id) {
      var k :| 0 <= k < |kept| && kept[k].movie.id == id;
      assert kept[k] in kept;
    }
    if RowMatches(rows, p, id) {
      var row :| row in rows && p(row) && row.movie.id == id;
      assert row in kept;
      var k :| 0 <= k < |kept| && kept[k] == row;
    }
  }

  /** The movies a query with row predicate `p` returns: the joined rows that satisfy `p`,
      folded to one movie per id. No id is returned twice, and an id is returned exactly
      when some joined row of it satisfies `p`. */
  function Query(movies: seq<Movie>, t: Related, p: Row -> bool): (r: seq<Movie>)
    ensures forall i, j :: 0 <= i < j < |r| ==> r[i].id != r[j].id
    ensures forall id :: HasMovie(r, id) <==> RowMatches(JoinRows(movies, t), p, id)
    ensures forall i :: 0 <= i < |r| ==> exists row :: row in JoinRows(movies, t) && p(row) && Columns(row.movie) == Columns(r[i])
  {
    var rows := JoinRows(movies, t);
    forall id ensures HasId(Filter(rows, p), id) <==> RowMatches(rows, p, id) {
      FilterHasId(rows, p, id);
    }
    var kept := Filter(rows, p);
    var r := Reduce(kept);
    forall i | 0 <= i < |r| ensures exists row :: row in rows && p(row) && Columns(row.movie) == Columns(r[i]) {
      var k :| 0 <= k < |kept| && Columns(kept[k].movie) == Columns(r[i]);
      assert kept[k] in kept;
    }
    r
  }

  /** Some stored movie with id `id` has a profile and satisfies `q`. */
  predicate StoredMatch(movies: seq<Movie>, t: Related, q: Movie -> bool, id: int) {
    exists m :: m in movies && m.id == id && HasProfile(m, t) && q(m)
  }

  /** A query whose predicate reads only the movie's own columns returns exactly the ids of
      the stored movies that satisfy it and have a profile. */
  lemma QueryByMovie(movies: seq<Movie>, t: Related, p: Row -> bool, q: Movie -> bool, id: int)
    requires forall row :: p(row) == q(row.movie)
    ensures HasMovie(Query(movies, t, p), id) <==> StoredMatch(movies, t, q, id)
  {
    if StoredMatch(movies, t, q, id) {
      var m :| m in movies && m.id == id && HasProfile(m, t) && q(m);
      MovieHasRow(movies, t, m);
      var row :| row in JoinRows(movies, t) && row.movie == m;
      assert RowMatches(JoinRows(movies, t), p, id);
    }
    if RowMatches(JoinRows(movies, t), p, id) {
      var row :| row in JoinRows(movies, t) && p(row) && row.movie.id == id;
      assert row.profile in t.profiles && row.profile.id == row.movie.profileId;
      assert HasProfile(row.movie, t);
    }
  }

  /** `movies[k]` is the first stored movie that satisfies `q` and has a profile. */
  predicate FirstStored(movies: seq<Movie>, t: Related, q: Movie -> bool, k: int) {
    0 <= k < |movies| && q(movies[k]) && HasProfile(movies[k], t) &&
    forall m :: 0 <= m < k ==> !(q(movies[m]) && HasProfile(movies[m], t))
  }

  /** The rows of a movie whose profile is missing, or which fails a movie predicate, are
      all dropped by that predicate. */
  lemma MovieRowsDropped(m: Movie, t: Related, p: Row -> bool, q: Movie -> bool)
    requires forall row :: p(row) == q(row.movie)
    requires !(q(m) && HasProfile(m, t))
    ensures Filter(MovieRows(m, t), p) == []
  {
    forall row | row in MovieRows(m, t) ensures !p(row) {
      assert row.profile in t.profiles && row.profile.id == m.profileId;
    }
    FilterNone(MovieRows(m, t), p);
  }

  /** The first joined row a movie predicate keeps belongs to the first stored movie that
      satisfies it and has a profile. */
  lemma {:induction false} FirstKeptRow(movies: seq<Movie>, t: Related, p: Row -> bool, q: Movie -> bool)
    requires forall row :: p(row) == q(row.movie)
    requires Filter(JoinRows(movies, t), p) != []
    ensures exists k :: FirstStored(movies, t, q, k) && Filter(JoinRows(movies, t), p)[0].movie == movies[k]
    decreases |movies|
  {
    var head := MovieRows(movies[0], t);
    var rest := JoinRows(movies[1..], t);
    assert JoinRows(movies, t) == head + rest;
    FilterConcat(head, rest, p);
    if q(movies[0]) && HasProfile(movies[0], t) {
      MovieHasRow([movies[0]], t, movies[0]);
      assert head == JoinRows([movies[0]], t) by {
        assert JoinRows([movies[0]], t) == head + JoinRows([], t);
      }
      FilterAllKept(head, p);
      assert head[0] in head;
      assert FirstStored(movies, t, q, 0);
    } else {
      MovieRowsDropped(movies[0], t, p, q);
      FirstKeptRow(movies[1..], t, p, q);
      var k :| FirstStored(movies[1..], t, q, k) && Filter(rest, p)[0].movie == movies[1..][k];
      assert FirstStored(movies, t, q, k + 1) by {
        forall m | 0 <= m < k + 1 ensures !(q(movies[m]) && HasProfile(movies[m], t)) {
          if m > 0 {
            assert movies[m] == movies[1..][m - 1];
          }
        }
      }
    }
  }

  /** The first movie a query on the movie's own columns returns carries the columns of
      the first stored movie that satisfies the predicate and has a profile. */
  lemma QueryHead(movies: seq<Movie>, t: Related, p: Row -> bool, q: Movie -> bool)
    requires forall row :: p(row) == q(row.movie)
    requires Query(movies, t, p) != []
    ensures exists k :: FirstStored(movies, t, q, k) && Columns(movies[k]) == Columns(Query(movies, t, p)[0])
  {
    var kept := Filter(JoinRows(movies, t), p);
    assert Query(movies, t, p) == Reduce(kept);
    assert kept != [];
    ReduceHead(kept);
    FirstKeptRow(movies, t, p, q);
  }

  /** A movie on a page of the folded rows is a movie of the folded rows. */
  lemma WindowKeepsIds(rows: seq<Row>, page: int, pageSize: int, id: int)
    requires HasMovie(Reduce(Window(rows, page, pageSize)), id)
    ensures HasMovie(Reduce(rows), id)
  {
    var window := Window(rows, page, pageSize);
    var k :| 0 <= k < |window| && window[k].movie.id == id;
    assert window[k] in rows;
    var n :| 0 <= n < |rows| && rows[n] == window[k];
  }
}

/** How a joined movie read is folded into movies. The join yields one row per combination
    of a movie with its profile, one of its alternative titles (or none) and one of its
    files (or none); `Map` keeps one entry per movie id and appends every alternative title
    it meets, and `GetResults` returns the entries in the order their ids were first seen. */
module MovieResults {
  import opened Wrappers
  import opened MovieEntities

  /** One row of the multi-mapped read: the movie, its profile, and the left-joined
      alternative title and movie file, which may be null. */
  datatype Row = Row(movie: Movie, profile: Profile, altTitle: Option<AlternativeTitle>, movieFile: Option<MovieFile>)

  /** `Dictionary<int, Movie>` with its insertion order made explicit: the values are
      enumerated in `order`. */
  datatype MovieDictionary = MovieDictionary(order: seq<int>, entries: map<int, Movie>)

  /** Whether some row carries movie id `id`. */
  predicate HasId(rows: seq<Row>, id: int) {
    exists k :: 0 <= k < |rows| && rows[k].movie.id == id
  }

  /** Whether a movie with id `id` is among `movies`. */
  predicate HasMovie(movies: seq<Movie>, id: int) {
    exists i :: 0 <= i < |movies| && movies[i].id == id
  }

  /** A movie's own columns, without the entities a joined read attaches to it. */
  function Columns(m: Movie): (c: Movie)
    ensures c.id == m.id && c.title == m.title && c.cleanTitle == m.cleanTitle && c.path == m.path
    ensures c.tmdbId == m.tmdbId && c.titleSlug == m.titleSlug && c.profileId == m.profileId
    ensures c.movieFileId == m.movieFileId && c.monitored == m.monitored
    ensures c.inCinemas == m.inCinemas && c.physicalRelease == m.physicalRelease
    ensures c.alternativeTitles == [] && c.profile.None? && c.movieFile.None?
  {
    m.(alternativeTitles := [], profile := None, movieFile := None)
  }

  /** Some row of `rows` carries a movie with the columns of `m`. */
  predicate FromRow(rows: seq<Row>, m: Movie) {
    exists k :: 0 <= k < |rows| && Columns(rows[k].movie) == Columns(m)
  }

  /** The alternative title a row contributes: none for a null left-joined title. */
  function AltOf(row: Row): (r: seq<AlternativeTitle>)
    ensures |r| <= 1 && (r == [] <==> row.altTitle.None?)
  {
    if row.altTitle.Some? then [row.altTitle.value] else []
  }

  /** The movie ids of `rows`, each once, in the order they are first seen. */
  function FirstSeen(rows: seq<Row>): (ids: seq<int>)
    ensures forall i, j :: 0 <= i < j < |ids| ==> ids[i] != ids[j]
    ensures forall id :: id in ids <==> HasId(rows, id)
  {
    if rows == [] then []
    else
      var init := rows[..|rows| - 1];
      var ids := FirstSeen(init);
      var id := rows[|rows| - 1].movie.id;
      assert forall x :: HasId(rows, x) <==> HasId(init, x) || x == id by {
        forall x ensures HasId(rows, x) <==> HasId(init, x) || x == id {
          if HasId(init, x) {
            var k :| 0 <= k < |init| && init[k].movie.id == x;
            assert rows[k] == init[k];
          }
          if HasId(rows, x) && x != id {
            var k :| 0 <= k < |rows| && rows[k].movie.id == x;
            assert k < |init| && init[k] == rows[k];
          }
        }
      }
      if id in ids then ids else ids + [id]
  }

  /** The position of the first row with movie id `id`. */
  function FirstIndex(rows: seq<Row>, id: int): (k: nat)
    requires HasId(rows, id)
    ensures k < |rows| && rows[k].movie.id == id
    ensures forall m :: 0 <= m < k ==> rows[m].movie.id != id
  {
    if rows[0].movie.id == id then 0
    else
      var k0 :| 0 <= k0 < |rows| && rows[k0].movie.id == id;
      assert rows[1..][k0 - 1].movie.id == id;
      1 + FirstIndex(rows[1..], id)
  }

  /** The alternative titles the rows of movie `id` carry, in row order. */
  function AltTitlesOf(rows: seq<Row>, id: int): (r: seq<AlternativeTitle>)
    ensures |r| <= |rows|
    ensures forall a :: a in r <==> exists k :: 0 <= k < |rows| && rows[k].movie.id == id && rows[k].altTitle == Some(a)
  {
    if rows == [] then []
    else
      var init := rows[..|rows| - 1];
      var last := rows[|rows| - 1];
      var r := AltTitlesOf(init, id) + (if last.movie.id == id then AltOf(last) else []);
      assert forall a :: a in r <==> exists k :: 0 <= k < |rows| && rows[k].movie.id == id && rows[k].altTitle == Some(a) by {
        forall a ensures a in r <==> exists k :: 0 <= k < |rows| && rows[k].movie.id == id && rows[k].altTitle == Some(a) {
          if a in AltTitlesOf(init, id) {
            var k :| 0 <= k < |init| && init[k].movie.id == id && init[k].altTitle == Some(a);
            assert rows[k] == init[k];
          }
          if exists k :: 0 <= k < |rows| && rows[k].movie.id == id && rows[k].altTitle == Some(a) {
            var k :| 0 <= k < |rows| && rows[k].movie.id == id && rows[k].altTitle == Some(a);
            if k < |init| {
              assert init[k] == rows[k];
            }
          }
        }
      }
      r
  }

  /** The movie `GetResults` returns for id `id`: the first row's movie with that row's
      profile and file, and every alternative title of the id's rows appended. */
  function Entry(rows: seq<Row>, id: int): (m: Movie)
    requires HasId(rows, id)
    ensures m.id == id
    ensures m.profile.Some? && m.profile.value == rows[FirstIndex(rows, id)].profile
    ensures m.movieFile == rows[FirstIndex(rows, id)].movieFile
    ensures m.alternativeTitles == rows[FirstIndex(rows, id)].movie.alternativeTitles + AltTitlesOf(rows, id)
  {
    var r := rows[FirstIndex(rows, id)];
    r.movie.(profile := Some(r.profile), movieFile := r.movieFile,
             alternativeTitles := r.movie.alternativeTitles + AltTitlesOf(rows, id))
  }

  /** The list `GetResults` returns for `rows`. */
  function Reduce(rows: seq<Row>): (r: seq<Movie>)
    ensures forall i, j :: 0 <= i < j < |r| ==> r[i].id != r[j].id
    ensures forall id :: HasMovie(r, id) <==> HasId(rows, id)
    ensures forall i :: 0 <= i < |r| ==> FromRow(rows, r[i])
    ensures |r| <= |rows|
  {
    var ids := FirstSeen(rows);
    var r := seq(|ids|, k requires 0 <= k < |ids| => Entry(rows, ids[k]));
    assert forall id :: HasMovie(r, id) <==> id in ids by {
      forall id ensures HasMovie(r, id) <==> id in ids {
        if id in ids {
          var i :| 0 <= i < |ids| && ids[i] == id;
          assert r[i].id == id;
        }
      }
    }
    forall i | 0 <= i < |r| ensures FromRow(rows, r[i]) {
      var k := FirstIndex(rows, ids[i]);
      assert Columns(rows[k].movie) == Columns(r[i]);
    }
    DistinctIdsBound(rows, ids);
    r
  }

  /** The first id seen is the first row's. */
  lemma {:induction false} FirstSeenHead(rows: seq<Row>)
    requires rows != []
    ensures FirstSeen(rows) != [] && FirstSeen(rows)[0] == rows[0].movie.id
    decreases |rows|
  {
    var init := rows[..|rows| - 1];
    if init != [] {
      FirstSeenHead(init);
      assert init[0] == rows[0];
    }
  }

  /** `GetResults` lists first the movie of the first row, with that row's columns. */
  lemma ReduceHead(rows: seq<Row>)
    requires rows != []
    ensures Reduce(rows) != [] && Columns(Reduce(rows)[0]) == Columns(rows[0].movie)
  {
    FirstSeenHead(rows);
    var id := rows[0].movie.id;
    assert HasId(rows, id);
    assert FirstIndex(rows, id) == 0;
    assert Reduce(rows)[0] == Entry(rows, id);
  }

  /** A duplicate-free list of ids that all occur in `rows` is no longer than `rows`. */
  lemma {:induction false} DistinctIdsBound(rows: seq<Row>, ids: seq<int>)
    requires forall i, j :: 0 <= i < j < |ids| ==> ids[i] != ids[j]
    requires forall id :: id in ids ==> HasId(rows, id)
    ensures |ids| <= |rows|
  {
    var rowIds := set k | 0 <= k < |rows| :: rows[k].movie.id;
    var idSet := set id | id in ids;
    assert idSet <= rowIds by {
      forall id | id in idSet ensures id in rowIds {
        var k :| 0 <= k < |rows| && rows[k].movie.id == id;
      }
    }
    DistinctCard(ids);
    RangeCard(rows, rowIds);
    SubsetCard(idSet, rowIds);
  }

  lemma {:induction false} DistinctCard(ids: seq<int>)
    requires forall i, j :: 0 <= i < j < |ids| ==> ids[i] != ids[j]
    ensures |set id | id in ids| == |ids|
  {
    if ids != [] {
      var init := ids[..|ids| - 1];
      DistinctCard(init);
      assert (set id | id in ids) == (set id | id in init) + {ids[|ids| - 1]};
      assert ids[|ids| - 1] !in (set id | id in init);
    }
  }

  lemma {:induction false} RangeCard(rows: seq<Row>, rowIds: set<int>)
    requires rowIds == set k | 0 <= k < |rows| :: rows[k].movie.id
    ensures |rowIds| <= |rows|
  {
    if rows != [] {
      var init := rows[..|rows| - 1];
      var initIds := set k | 0 <= k < |init| :: init[k].movie.id;
      RangeCard(init, initIds);
      assert rowIds == initIds + {rows[|rows| - 1].movie.id} by {
        forall x | x in rowIds ensures x in initIds + {rows[|rows| - 1].movie.id} {
          var k :| 0 <= k < |rows| && rows[k].movie.id == x;
          if k < |init| {
            assert init[k] == rows[k];
          }
        }
        forall x | x in initIds ensures x in rowIds {
          var k :| 0 <= k < |init| && init[k].movie.id == x;
          assert rows[k] == init[k];
        }
      }
    }
  }

  lemma SubsetCard(a: set<int>, b: set<int>)
    requires a <= b
    ensures |a| <= |b|
  {
    assert b == a + (b - a);
  }

  /** `Map`: the first row of a movie id stores the row's movie with its profile and file;
      a later row reuses the stored entry. A non-null alternative title is appended to the
      entry either way. Entries of other ids stay as they were. */
  method Map(dict: MovieDictionary, movie: Movie, profile: Profile, altTitle: Option<AlternativeTitle>, movieFile: Option<MovieFile>)
    returns (newDict: MovieDictionary, entry: Movie)
    ensures movie.id in newDict.entries && newDict.entries[movie.id] == entry
    ensures movie.id in dict.entries ==>
              newDict.order == dict.order &&
              entry == dict.entries[movie.id].(alternativeTitles := dict.entries[movie.id].alternativeTitles + AltOf(Row(movie, profile, altTitle, movieFile)))
    ensures movie.id !in dict.entries ==>
              newDict.order == dict.order + [movie.id] &&
              entry == movie.(profile := Some(profile), movieFile := movieFile,
                              alternativeTitles := movie.alternativeTitles + AltOf(Row(movie, profile, altTitle, movieFile)))
    ensures forall id :: id != movie.id ==> (id in newDict.entries <==> id in dict.entries)
    ensures forall id :: id != movie.id && id in dict.entries ==> newDict.entries[id] == dict.entries[id]
  {
    var movieEntry: Movie;
    if movie.id in dict.entries {
      movieEntry := dict.entries[movie.id];
      newDict := dict;
    } else {
      movieEntry := movie.(profile := Some(profile), movieFile := movieFile);
      newDict := MovieDictionary(dict.order + [movie.id], dict.entries[movie.id := movieEntry]);
    }
    if altTitle.Some? {
      movieEntry := movieEntry.(alternativeTitles := movieEntry.alternativeTitles + [altTitle.value]);
      newDict := newDict.(entries := newDict.entries[movie.id := movieEntry]);
    }
    entry := movieEntry;
  }

  /** The dictionary after folding `rows`: its order is the first-seen order of the ids
      and each id holds `Entry`. */
  ghost predicate Folded(dict: MovieDictionary, rows: seq<Row>) {
    dict.order == FirstSeen(rows) &&
    (forall id :: id in dict.entries <==> HasId(rows, id)) &&
    (forall id :: id in dict.entries ==> dict.entries[id] == Entry(rows, id))
  }

  /** The ids of `rows + [row]` are those of `rows` and the new row's. */
  lemma HasIdAppend(rows: seq<Row>, row: Row, x: int)
    ensures HasId(rows + [row], x) <==> HasId(rows, x) || x == row.movie.id
  {
    var rows' := rows + [row];
    if HasId(rows, x) {
      var k :| 0 <= k < |rows| && rows[k].movie.id == x;
      assert rows'[k] == rows[k];
    }
    assert rows'[|rows|] == row;
  }

  /** Appending a row to an id already present keeps its first row and appends the new
      row's title when the row is the id's. */
  lemma EntryAppendPresent(rows: seq<Row>, row: Row, id: int)
    requires HasId(rows, id)
    ensures HasId(rows + [row], id)
    ensures Entry(rows + [row], id) ==
              Entry(rows, id).(alternativeTitles := Entry(rows, id).alternativeTitles + (if row.movie.id == id then AltOf(row) else []))
  {
    var rows' := rows + [row];
    var k := FirstIndex(rows, id);
    assert rows'[k] == rows[k];
    assert rows'[..|rows'| - 1] == rows;
    assert FirstIndex(rows', id) == k;
  }

  /** The entry of an id first met in the appended row is that row's movie, profile, file
      and title. */
  lemma EntryAppendNew(rows: seq<Row>, row: Row)
    requires !HasId(rows, row.movie.id)
    ensures HasId(rows + [row], row.movie.id)
    ensures Entry(rows + [row], row.movie.id) ==
              row.movie.(profile := Some(row.profile), movieFile := row.movieFile,
                         alternativeTitles := row.movie.alternativeTitles + AltOf(row))
  {
    var rows' := rows + [row];
    var id := row.movie.id;
    assert rows'[|rows|] == row;
    assert rows'[..|rows'| - 1] == rows;
    assert FirstIndex(rows', id) == |rows|;
    if AltTitlesOf(rows, id) != [] {
      assert AltTitlesOf(rows, id)[0] in AltTitlesOf(rows, id);
    }
  }

  /** Folding one more row into a folded dictionary with `Map` keeps it folded. */
  lemma FoldStep(dict: MovieDictionary, rows: seq<Row>, row: Row, newDict: MovieDictionary)
    requires Folded(dict, rows)
    requires newDict.order == (if row.movie.id in dict.entries then dict.order else dict.order + [row.movie.id])
    requires row.movie.id in newDict.entries
    requires row.movie.id in dict.entries ==>
               newDict.entries[row.movie.id] == dict.entries[row.movie.id].(alternativeTitles := dict.entries[row.movie.id].alternativeTitles + AltOf(row))
    requires row.movie.id !in dict.entries ==>
               newDict.entries[row.movie.id] == row.movie.(profile := Some(row.profile), movieFile := row.movieFile,
                                                           alternativeTitles := row.movie.alternativeTitles + AltOf(row))
    requires forall id :: id != row.movie.id ==> (id in newDict.entries <==> id in dict.entries)
    requires forall id :: id != row.movie.id && id in dict.entries ==> newDict.entries[id] == dict.entries[id]
    ensures Folded(newDict, rows + [row])
  {
    var rows' := rows + [row];
    assert rows'[..|rows'| - 1] == rows;
    forall x ensures HasId(rows', x) <==> HasId(rows, x) || x == row.movie.id {
      HasIdAppend(rows, row, x);
    }
    forall id | id in newDict.entries ensures newDict.entries[id] == Entry(rows', id) {
      if HasId(rows, id) {
        EntryAppendPresent(rows, row, id);
      } else {
        EntryAppendNew(rows, row);
      }
    }
  }

  /** `GetResults`: every joined row goes through `Map`; the dictionary's values are the
      result. One movie per id, in first-seen order, each as `Entry` describes it. */
  method GetResults(rows: seq<Row>) returns (movies: seq<Movie>)
    ensures movies == Reduce(rows)
  {
    var dict := MovieDictionary([], map[]);
    var i := 0;
    while i < |rows|
      invariant 0 <= i <= |rows|
      invariant Folded(dict, rows[..i])
      invariant forall id :: id in dict.order ==> id in dict.entries
    {
      var row := rows[i];
      var newDict, _ := Map(dict, row.movie, row.profile, row.altTitle, row.movieFile);
      FoldStep(dict, rows[..i], row, newDict);
      assert rows[..i + 1] == rows[..i] + [row];
      dict := newDict;
      i := i + 1;
    }
    assert rows[..i] == rows;
    assert forall k :: 0 <= k < |dict.order| ==> dict.order[k] in dict.order;
    movies := seq(|dict.order|, k requires 0 <= k < |dict.order| => dict.entries[dict.order[k]]);
  }
}

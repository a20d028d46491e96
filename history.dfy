/** `HistoryRepository`: the download and import history of the library's movies. A
    record's quality is the quality document as the store holds it (serialized text), so
    comparing qualities compares that text. */
module HistoryRepositories {
  import opened Wrappers
  import opened Tables
  import opened MovieEntities

  datatype HistoryEventType =
    | Unknown
    | Grabbed
    | MovieFolderImported
    | DownloadFolderImported
    | DownloadFailed
    | MovieFileDeleted
    | MovieFileRenamed
    | DownloadIgnored

  /** A history record; `movie` is filled only by the joined paged read. */
  datatype History = History(
    id: int,
    movieId: int,
    quality: string,
    date: int,
    eventType: HistoryEventType,
    downloadId: Option<string>,
    sourceTitle: string,
    movie: Option<Movie>)

  /** The event types `FindDownloadHistory` looks for. */
  predicate IsDownloadEvent(e: HistoryEventType) {
    e == Grabbed || e == DownloadFailed || e == DownloadFolderImported
  }

  /** `eventType` is absent, or the record has it. */
  predicate OfType(h: History, eventType: Option<HistoryEventType>) {
    eventType.None? || h.eventType == eventType.value
  }

  function OfMovie(movieId: int): History -> bool {
    (h: History) => h.movieId == movieId
  }

  function OtherMovie(movieId: int): History -> bool {
    (h: History) => h.movieId != movieId
  }

  function WithDownloadId(downloadId: string): History -> bool {
    (h: History) => h.downloadId == Some(downloadId)
  }

  function DownloadOf(movieId: int, quality: string): History -> bool {
    (h: History) => h.movieId == movieId && h.quality == quality && IsDownloadEvent(h.eventType)
  }

  function MovieEvent(movieId: int, eventType: Option<HistoryEventType>): History -> bool {
    (h: History) => h.movieId == movieId && OfType(h, eventType)
  }

  function SinceEvent(date: int, eventType: Option<HistoryEventType>): History -> bool {
    (h: History) => h.date >= date && OfType(h, eventType)
  }

  function DateIs(d: int): History -> bool {
    (h: History) => h.date == d
  }

  /** `OrderByDescending(Date).FirstOrDefault()`: the descending sort is stable, so the
      answer is the first record, in table order, whose date is the greatest. */
  function MostRecent(s: seq<History>): (r: Option<History>)
    ensures r.None? <==> s == []
    ensures r.Some? ==> r.value in s && forall h :: h in s ==> h.date <= r.value.date
    ensures r.Some? ==> exists k :: 0 <= k < |s| && s[k] == r.value && forall m :: 0 <= m < k ==> s[m].date < r.value.date
  {
    if s == [] then None
    else
      var rest := MostRecent(s[1..]);
      assert forall h :: h in s ==> h == s[0] || h in s[1..];
      if rest.None? || rest.value.date <= s[0].date then Some(s[0])
      else
        var k :| 0 <= k < |s[1..]| && s[1..][k] == rest.value && forall m :: 0 <= m < k ==> s[1..][m].date < rest.value.date;
        assert s[k + 1] == rest.value && forall m :: 0 <= m < k + 1 ==> s[m].date < rest.value.date;
        rest
  }

  predicate SortedByDate(s: seq<History>) {
    forall i, j :: 0 <= i < j < |s| ==> s[i].date <= s[j].date
  }

  /** `h` placed into a date-sorted sequence after every record whose date is not later. */
  function InsertByDate(h: History, sorted: seq<History>): (r: seq<History>)
    ensures forall x :: x in r <==> x in sorted || x == h
    ensures multiset(r) == multiset(sorted) + multiset{h}
  {
    if sorted == [] then [h]
    else if h.date < sorted[0].date then [h] + sorted
    else
      assert sorted == [sorted[0]] + sorted[1..];
      [sorted[0]] + InsertByDate(h, sorted[1..])
  }

  lemma SortedTail(s: seq<History>)
    requires SortedByDate(s) && s != []
    ensures SortedByDate(s[1..])
  {
    forall i, j | 0 <= i < j < |s| - 1 ensures s[1..][i].date <= s[1..][j].date {
      assert s[1..][i] == s[i + 1] && s[1..][j] == s[j + 1];
    }
  }

  /** Insertion keeps a sequence sorted by date. */
  lemma {:induction false} InsertByDateSorted(h: History, sorted: seq<History>)
    requires SortedByDate(sorted)
    ensures SortedByDate(InsertByDate(h, sorted))
  {
    if sorted != [] && h.date >= sorted[0].date {
      var first, tail := sorted[0], sorted[1..];
      SortedTail(sorted);
      InsertByDateSorted(h, tail);
      var rest := InsertByDate(h, tail);
      forall x | x in rest ensures first.date <= x.date {
        if x != h {
          var k :| 0 <= k < |tail| && tail[k] == x;
          assert sorted[k + 1] == x;
        }
      }
      var r := [first] + rest;
      forall i, j | 0 <= i < j < |r| ensures r[i].date <= r[j].date {
        assert r[j] == rest[j - 1];
        if i > 0 {
          assert r[i] == rest[i - 1];
        } else {
          assert rest[j - 1] in rest;
        }
      }
    }
  }

  /** `OrderBy(Date)`: a stable ascending sort, by insertion in table order. */
  function SortByDate(s: seq<History>): (r: seq<History>)
    ensures SortedByDate(r)
    ensures multiset(r) == multiset(s)
  {
    if s == [] then []
    else
      var init, last := s[..|s| - 1], s[|s| - 1];
      assert s == init + [last];
      InsertByDateSorted(last, SortByDate(init));
      InsertByDate(last, SortByDate(init))
  }

  /** The sort returns each record as often as it was given, so exactly the given records. */
  lemma SortKeepsRecords(s: seq<History>)
    ensures forall x :: multiset(SortByDate(s))[x] == multiset(s)[x]
    ensures forall x :: x in SortByDate(s) <==> x in s
  {
    var r := SortByDate(s);
    forall x ensures x in r <==> x in s {
      assert x in r <==> x in multiset(r);
      assert x in s <==> x in multiset(s);
    }
  }

  /** A record inserted after the records of its own date keeps their relative order. */
  lemma {:induction false} InsertKeepsDateOrder(h: History, sorted: seq<History>, d: int)
    requires SortedByDate(sorted)
    ensures Filter(InsertByDate(h, sorted), DateIs(d)) == Filter(sorted, DateIs(d)) + Filter([h], DateIs(d))
  {
    var single := [h];
    assert single[1..] == [];
    if sorted == [] {
    } else if h.date < sorted[0].date {
      InsertAtFront(h, sorted, d);
    } else {
      SortedTail(sorted);
      InsertKeepsDateOrder(h, sorted[1..], d);
      InsertBehindFirst(h, sorted, d);
    }
  }

  /** The step of `InsertKeepsDateOrder` past the first record. */
  lemma InsertBehindFirst(h: History, sorted: seq<History>, d: int)
    requires sorted != [] && h.date >= sorted[0].date
    requires Filter(InsertByDate(h, sorted[1..]), DateIs(d)) == Filter(sorted[1..], DateIs(d)) + Filter([h], DateIs(d))
    ensures Filter(InsertByDate(h, sorted), DateIs(d)) == Filter(sorted, DateIs(d)) + Filter([h], DateIs(d))
  {
    var tail := sorted[1..];
    ConsTail(sorted);
    FilterConsStep(sorted[0], InsertByDate(h, tail), tail, Filter([h], DateIs(d)), DateIs(d));
  }

  /** A record placed before every later-dated record is the only one of its date. */
  lemma InsertAtFront(h: History, sorted: seq<History>, d: int)
    requires SortedByDate(sorted) && sorted != [] && h.date < sorted[0].date
    ensures Filter([h] + sorted, DateIs(d)) == Filter(sorted, DateIs(d)) + Filter([h], DateIs(d))
  {
    var single := [h];
    assert single[1..] == [];
    FilterConcat(single, sorted, DateIs(d));
    if h.date == d {
      forall x | x in sorted ensures !DateIs(d)(x) {
        var k :| 0 <= k < |sorted| && sorted[k] == x;
        assert sorted[0].date <= sorted[k].date;
      }
      FilterNone(sorted, DateIs(d));
    }
  }

  /** The sort is stable: the records of any one date come out in table order. */
  lemma {:induction false} SortByDateStable(s: seq<History>, d: int)
    ensures Filter(SortByDate(s), DateIs(d)) == Filter(s, DateIs(d))
  {
    if s != [] {
      var init, last := s[..|s| - 1], s[|s| - 1];
      assert s == init + [last];
      SortByDateStable(init, d);
      InsertKeepsDateOrder(last, SortByDate(init), d);
      FilterConcat(init, [last], DateIs(d));
    }
  }

  /** Every record of `s` whose date is `d` comes out of the sort, in table order, and the
      sort is ascending and a permutation. */
  lemma SortByDateSpec(s: seq<History>)
    ensures SortedByDate(SortByDate(s)) && multiset(SortByDate(s)) == multiset(s)
    ensures forall d :: Filter(SortByDate(s), DateIs(d)) == Filter(s, DateIs(d))
  {
    forall d ensures Filter(SortByDate(s), DateIs(d)) == Filter(s, DateIs(d)) {
      SortByDateStable(s, d);
    }
  }

  /** A history row joined to its movie and that movie's profile (`SelectJoined`). */
  function Attach(h: History, m: Movie, p: Profile): History {
    h.(movie := Some(m.(profile := Some(p))))
  }

  /** The row `x` is `h` joined to a stored movie of its movie id and to that movie's profile. */
  predicate JoinedFrom(x: History, h: History, movies: seq<Movie>, profiles: seq<Profile>) {
    exists m, p :: m in movies && p in profiles && m.id == h.movieId && p.id == m.profileId && x == Attach(h, m, p)
  }

  function WithProfiles(h: History, m: Movie, profiles: seq<Profile>): (r: seq<History>)
    ensures forall x :: x in r <==> exists p :: p in profiles && p.id == m.profileId && x == Attach(h, m, p)
  {
    if profiles == [] then []
    else
      assert forall p :: p in profiles <==> p == profiles[0] || p in profiles[1..];
      (if profiles[0].id == m.profileId then [Attach(h, m, profiles[0])] else []) + WithProfiles(h, m, profiles[1..])
  }

  function WithMovies(h: History, movies: seq<Movie>, profiles: seq<Profile>): (r: seq<History>)
    ensures forall x :: x in r <==> JoinedFrom(x, h, movies, profiles)
  {
    if movies == [] then []
    else
      assert forall m :: m in movies <==> m == movies[0] || m in movies[1..];
      (if movies[0].id == h.movieId then WithProfiles(h, movies[0], profiles) else []) + WithMovies(h, movies[1..], profiles)
  }

  /** The joined paged read: `History` inner-joined to `Movies` on the movie id and to
      `Profiles` on the movie's profile id, one row per match, each with its movie and the
      movie's profile attached. A record whose movie or profile is missing yields no row. */
  function PagedJoin(history: seq<History>, movies: seq<Movie>, profiles: seq<Profile>): (r: seq<History>)
    ensures forall x :: x in r <==> exists h :: h in history && JoinedFrom(x, h, movies, profiles)
  {
    if history == [] then []
    else
      assert forall h :: h in history <==> h == history[0] || h in history[1..];
      WithMovies(history[0], movies, profiles) + PagedJoin(history[1..], movies, profiles)
  }

  /** Each joined row carries a stored movie of its own movie id, with a stored profile. */
  lemma PagedRowsHaveMovie(history: seq<History>, movies: seq<Movie>, profiles: seq<Profile>, x: History)
    requires x in PagedJoin(history, movies, profiles)
    ensures x.movie.Some? && x.movie.value.id == x.movieId
    ensures x.movie.value.profile.Some? && x.movie.value.profile.value in profiles
    ensures exists m :: m in movies && m.id == x.movieId
  {
    var h :| h in history && JoinedFrom(x, h, movies, profiles);
    var m, p :| m in movies && p in profiles && m.id == h.movieId && p.id == m.profileId && x == Attach(h, m, p);
  }

  class HistoryRepository {
    var history: seq<History>

    constructor (history: seq<History>)
      ensures this.history == history
    {
      this.history := history;
    }

    /** `GetBestQualityInHistory`: the quality of each record of the movie, in table order. */
    function GetBestQualityInHistory(movieId: int): (r: seq<string>)
      reads this
      ensures var records := Filter(history, OfMovie(movieId));
              |r| == |records| && forall i :: 0 <= i < |r| ==> r[i] == records[i].quality
      ensures forall h :: h in history && h.movieId == movieId ==> h.quality in r
    {
      var records := Filter(history, OfMovie(movieId));
      var r := seq(|records|, i requires 0 <= i < |records| => records[i].quality);
      assert forall h :: h in records ==> h.quality in r by {
        forall h | h in records ensures h.quality in r {
          var i :| 0 <= i < |records| && records[i] == h;
          assert r[i] == h.quality;
        }
      }
      r
    }

    /** `FindByDownloadId`: exactly the records with this download id. */
    function FindByDownloadId(downloadId: string): (r: seq<History>)
      reads this
      ensures forall h :: h in r <==> h in history && h.downloadId == Some(downloadId)
    {
      Filter(history, WithDownloadId(downloadId))
    }

    /** `MostRecentForDownloadId`: a record of the download with the greatest date, or none
        when the download has no record. */
    function MostRecentForDownloadId(downloadId: string): (r: Option<History>)
      reads this
      ensures r.None? <==> forall h :: h in history ==> h.downloadId != Some(downloadId)
      ensures r.Some? ==> r.value in history && r.value.downloadId == Some(downloadId)
      ensures r.Some? ==> forall h :: h in history && h.downloadId == Some(downloadId) ==> h.date <= r.value.date
    {
      var records := FindByDownloadId(downloadId);
      assert records == [] <==> forall h :: h in history ==> h.downloadId != Some(downloadId) by {
        if records != [] {
          assert records[0] in records;
        }
      }
      MostRecent(records)
    }

    /** `FindDownloadHistory`: the movie's grab, import and failure records of this quality. */
    function FindDownloadHistory(movieId: int, quality: string): (r: seq<History>)
      reads this
      ensures forall h :: h in r <==> h in history && h.movieId == movieId && h.quality == quality && IsDownloadEvent(h.eventType)
    {
      Filter(history, DownloadOf(movieId, quality))
    }

    /** `GetByMovieId`: exactly the movie's records, of the event type when one is given.
        The descending sort the source computes is discarded, so no order is promised. */
    function GetByMovieId(movieId: int, eventType: Option<HistoryEventType>): (r: seq<History>)
      reads this
      ensures forall h :: h in r <==> h in history && h.movieId == movieId && OfType(h, eventType)
      ensures forall h :: multiset(r)[h] == if h.movieId == movieId && OfType(h, eventType) then multiset(history)[h] else 0
    {
      FilterCounts(history, MovieEvent(movieId, eventType));
      Filter(history, MovieEvent(movieId, eventType))
    }

    /** `DeleteForMovie`: removes every record of the movie and keeps the others in order. */
    method DeleteForMovie(movieId: int)
      modifies this
      ensures history == Filter(old(history), OtherMovie(movieId))
    {
      history := Filter(history, OtherMovie(movieId));
    }

    /** `MostRecentForMovie`: a record of the movie with the greatest date, or none when the
        movie has no record. */
    function MostRecentForMovie(movieId: int): (r: Option<History>)
      reads this
      ensures r.None? <==> forall h :: h in history ==> h.movieId != movieId
      ensures r.Some? ==> r.value in history && r.value.movieId == movieId
      ensures r.Some? ==> forall h :: h in history && h.movieId == movieId ==> h.date <= r.value.date
    {
      var records := Filter(history, OfMovie(movieId));
      assert records == [] <==> forall h :: h in history ==> h.movieId != movieId by {
        if records != [] {
          assert records[0] in records;
        }
      }
      MostRecent(records)
    }

    /** `Since`: the records dated `date` or later, of the event type when one is given,
        ascending by date; records of equal date keep table order. */
    function Since(date: int, eventType: Option<HistoryEventType>): (r: seq<History>)
      reads this
      ensures SortedByDate(r)
      ensures forall h :: h in r <==> h in history && h.date >= date && OfType(h, eventType)
      ensures forall h :: multiset(r)[h] == if h.date >= date && OfType(h, eventType) then multiset(history)[h] else 0
    {
      var kept := Filter(history, SinceEvent(date, eventType));
      FilterCounts(history, SinceEvent(date, eventType));
      SortKeepsRecords(kept);
      SortByDate(kept)
    }
  }

  /** After `DeleteForMovie(movieId)` the movie has no record. */
  lemma DeleteForMovieRemovesAll(history: seq<History>, movieId: int)
    ensures Filter(Filter(history, OtherMovie(movieId)), OfMovie(movieId)) == []
  {
    FilterNone(Filter(history, OtherMovie(movieId)), OfMovie(movieId));
  }

  /** After `DeleteForMovie(movieId)` every other movie's records are exactly as before,
      in the same order. */
  lemma DeleteForMovieKeepsOthers(history: seq<History>, movieId: int, other: int)
    requires other != movieId
    ensures Filter(Filter(history, OtherMovie(movieId)), OfMovie(other)) == Filter(history, OfMovie(other))
  {
    FilterCommutes(history, OtherMovie(movieId), OfMovie(other));
    FilterAllKept(Filter(history, OfMovie(other)), OtherMovie(movieId));
  }

  /** The records `Since` returns for one date are that date's records in table order. */
  lemma SinceStable(repo: HistoryRepository, date: int, eventType: Option<HistoryEventType>, d: int)
    ensures Filter(repo.Since(date, eventType), DateIs(d)) == Filter(Filter(repo.history, SinceEvent(date, eventType)), DateIs(d))
  {
    SortByDateStable(Filter(repo.history, SinceEvent(date, eventType)), d);
  }

  /** The first of several records sharing the greatest date wins. */
  lemma MostRecentPrefersFirst(a: History, b: History)
    requires a.date == b.date
    ensures MostRecent([a, b]) == Some(a)
  {
    assert [a, b][1..] == [b];
  }
}

/** `BlacklistRepository`: releases the user rejected for a movie. A search for text
    "contained" in a column is SQL `LIKE '%' || value || '%'`, modelled as the value
    occurring in the column's text; a null column never matches. */
module BlacklistRepositories {
  import opened Wrappers
  import opened Text
  import opened Tables
  import opened MovieEntities

  /** A blacklist entry; `movie` is filled only by the joined paged read. */
  datatype Blacklist = Blacklist(
    id: int,
    movieId: int,
    sourceTitle: string,
    quality: string,
    date: int,
    torrentInfoHash: Option<string>,
    movie: Option<Movie>)

  function OfMovie(movieId: int): Blacklist -> bool {
    (b: Blacklist) => b.movieId == movieId
  }

  function TitleContains(movieId: int, sourceTitle: string): Blacklist -> bool {
    (b: Blacklist) => b.movieId == movieId && IsInfix(sourceTitle, b.sourceTitle)
  }

  function HashContains(movieId: int, torrentInfoHash: string): Blacklist -> bool {
    (b: Blacklist) => b.movieId == movieId && b.torrentInfoHash.Some? && IsInfix(torrentInfoHash, b.torrentInfoHash.value)
  }

  /** `BlacklistedByTitle`: the movie's entries whose source title contains `sourceTitle`. */
  function BlacklistedByTitle(blacklist: seq<Blacklist>, movieId: int, sourceTitle: string): (r: seq<Blacklist>)
    ensures forall b :: b in r <==> b in blacklist && b.movieId == movieId && IsInfix(sourceTitle, b.sourceTitle)
  {
    Filter(blacklist, TitleContains(movieId, sourceTitle))
  }

  /** `BlacklistedByTorrentInfoHash`: the movie's entries with a torrent hash containing
      `torrentInfoHash`; an entry without a hash never matches. */
  function BlacklistedByTorrentInfoHash(blacklist: seq<Blacklist>, movieId: int, torrentInfoHash: string): (r: seq<Blacklist>)
    ensures forall b :: b in r <==> b in blacklist && b.movieId == movieId && b.torrentInfoHash.Some? && IsInfix(torrentInfoHash, b.torrentInfoHash.value)
    ensures forall b :: b in r ==> b.torrentInfoHash != None
  {
    Filter(blacklist, HashContains(movieId, torrentInfoHash))
  }

  /** `BlacklistedByMovie`: exactly the movie's entries. */
  function BlacklistedByMovie(blacklist: seq<Blacklist>, movieId: int): (r: seq<Blacklist>)
    ensures forall b :: b in r <==> b in blacklist && b.movieId == movieId
  {
    Filter(blacklist, OfMovie(movieId))
  }

  /** An entry found by title is one of the movie's entries, and the empty title finds
      all of them, in the same order. */
  lemma {:induction false} EmptyTitleFindsMovie(blacklist: seq<Blacklist>, movieId: int)
    ensures BlacklistedByTitle(blacklist, movieId, "") == BlacklistedByMovie(blacklist, movieId)
  {
    forall b | b in blacklist ensures TitleContains(movieId, "")(b) == OfMovie(movieId)(b) {
      EmptyIsInfix(b.sourceTitle);
    }
    FilterSame(blacklist, TitleContains(movieId, ""), OfMovie(movieId));
  }

  /** A longer search text finds no entry a shorter text within it misses. */
  lemma TitleSearchNarrows(blacklist: seq<Blacklist>, movieId: int, shorter: string, longer: string)
    requires IsInfix(shorter, longer)
    ensures forall b :: b in BlacklistedByTitle(blacklist, movieId, longer) ==> b in BlacklistedByTitle(blacklist, movieId, shorter)
  {
    forall b | b in BlacklistedByTitle(blacklist, movieId, longer)
      ensures b in BlacklistedByTitle(blacklist, movieId, shorter)
    {
      InfixTransitive(shorter, longer, b.sourceTitle);
    }
  }

  /** An entry of the movie whose source title is exactly the search text is found. */
  lemma ExactTitleFound(blacklist: seq<Blacklist>, b: Blacklist)
    requires b in blacklist
    ensures b in BlacklistedByTitle(blacklist, b.movieId, b.sourceTitle)
  {
    assert OccursAt(b.sourceTitle, b.sourceTitle, 0);
  }

  /** The entry `b` with the joined movie `m` attached (`bl.Movie = movie`). */
  function Attach(b: Blacklist, m: Movie): Blacklist {
    b.(movie := Some(m))
  }

  /** The row `x` is `b` joined to a stored movie of its movie id. */
  predicate JoinedFrom(x: Blacklist, b: Blacklist, movies: seq<Movie>) {
    exists m :: m in movies && m.id == b.movieId && x == Attach(b, m)
  }

  function WithMovies(b: Blacklist, movies: seq<Movie>): (r: seq<Blacklist>)
    ensures forall x :: x in r <==> JoinedFrom(x, b, movies)
  {
    if movies == [] then []
    else
      assert forall m :: m in movies <==> m == movies[0] || m in movies[1..];
      (if movies[0].id == b.movieId then [Attach(b, movies[0])] else []) + WithMovies(b, movies[1..])
  }

  /** The joined paged read: `Blacklist` inner-joined to `Movies` on the movie id, one entry
      per joined row with that row's movie attached. An entry whose movie is missing yields
      no row, and every row carries a stored movie of its own movie id. */
  function PagedJoin(blacklist: seq<Blacklist>, movies: seq<Movie>): (r: seq<Blacklist>)
    ensures forall x :: x in r <==> exists b :: b in blacklist && JoinedFrom(x, b, movies)
    ensures forall x :: x in r ==> x.movie.Some? && x.movie.value in movies && x.movie.value.id == x.movieId
  {
    if blacklist == [] then []
    else
      assert forall b :: b in blacklist <==> b == blacklist[0] || b in blacklist[1..];
      var first := WithMovies(blacklist[0], movies);
      assert forall x :: x in first ==> x.movie.Some? && x.movie.value in movies && x.movie.value.id == x.movieId;
      first + PagedJoin(blacklist[1..], movies)
  }

  /** An entry whose movie is stored appears in the joined read with that movie. */
  lemma PagedJoinKeepsStored(blacklist: seq<Blacklist>, movies: seq<Movie>, b: Blacklist, m: Movie)
    requires b in blacklist && m in movies && m.id == b.movieId
    ensures Attach(b, m) in PagedJoin(blacklist, movies)
  {
    assert JoinedFrom(Attach(b, m), b, movies);
  }
}

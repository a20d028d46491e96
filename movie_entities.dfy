/** The records of the movie library that the repositories read and join. Times (release
    dates, timestamps) are integers. */
module MovieEntities {
  import opened Wrappers

  datatype Profile = Profile(id: int, name: string)

  datatype AlternativeTitle = AlternativeTitle(id: int, movieId: int, sourceId: int, title: string, cleanTitle: string)

  datatype MediaInfo = MediaInfo(videoCodec: string, audioCodec: string)

  /** A movie file; `quality` is the quality document as the store holds it (serialized text). */
  datatype MovieFile = MovieFile(id: int, movieId: int, quality: string, mediaInfo: Option<MediaInfo>)

  /** A movie row plus the related entities a joined read attaches to it (`Profile`,
      `MovieFile`, `AlternativeTitles`). `movieFileId` is 0 when the movie has no file. */
  datatype Movie = Movie(
    id: int,
    title: string,
    cleanTitle: string,
    path: string,
    tmdbId: int,
    titleSlug: string,
    profileId: int,
    movieFileId: int,
    monitored: bool,
    inCinemas: Option<int>,
    physicalRelease: Option<int>,
    alternativeTitles: seq<AlternativeTitle>,
    profile: Option<Profile>,
    movieFile: Option<MovieFile>)

  /** The alternative titles of movie `movieId`: the join condition of `AlternativeTitles`,
      and the WHERE of the title repository's per-movie finder. */
  function TitleOf(movieId: int): AlternativeTitle -> bool {
    (a: AlternativeTitle) => a.movieId == movieId
  }

  /** The files of movie `movieId`: the join condition of `MovieFiles`, and the WHERE of the
      file repository's per-movie finder. */
  function FileOf(movieId: int): MovieFile -> bool {
    (f: MovieFile) => f.movieId == movieId
  }
}

/** `MediaFileRepository`: the movie files on disk. A file's media information is read
    from the file later, so it is null until then. The finders only read the table. */
module MediaFileRepositories {
  import opened Wrappers
  import opened Tables
  import opened MovieEntities

  function WithoutMediaInfo(): MovieFile -> bool {
    (f: MovieFile) => f.mediaInfo.None?
  }

  function WithMediaInfo(): MovieFile -> bool {
    (f: MovieFile) => f.mediaInfo.Some?
  }

  /** `GetFilesByMovie`: exactly the movie's files. */
  function GetFilesByMovie(files: seq<MovieFile>, movieId: int): (r: seq<MovieFile>)
    ensures forall f :: f in r <==> f in files && f.movieId == movieId
  {
    Filter(files, FileOf(movieId))
  }

  /** `GetFilesWithoutMediaInfo`: exactly the files whose media information is null; a file
      with media information never appears. */
  function GetFilesWithoutMediaInfo(files: seq<MovieFile>): (r: seq<MovieFile>)
    ensures forall f :: f in r <==> f in files && f.mediaInfo.None?
    ensures forall f :: f in files && f.mediaInfo.Some? ==> f !in r
  {
    Filter(files, WithoutMediaInfo())
  }

  /** The movie's files still awaiting media information are the same rows, in the same
      order, whichever finder runs first. */
  lemma WithoutMediaInfoByMovie(files: seq<MovieFile>, movieId: int)
    ensures GetFilesWithoutMediaInfo(GetFilesByMovie(files, movieId)) == GetFilesByMovie(GetFilesWithoutMediaInfo(files), movieId)
  {
    FilterCommutes(files, FileOf(movieId), WithoutMediaInfo());
  }

  /** Every file either awaits media information or has it: the files without it and the
      files with it add up to the table. */
  lemma MediaInfoPartition(files: seq<MovieFile>)
    ensures |GetFilesWithoutMediaInfo(files)| + |Filter(files, WithMediaInfo())| == |files|
  {
    FilterPartition(files, WithoutMediaInfo(), WithMediaInfo());
  }
}

# Radarr data-access layer in Dafny

This project models the data-access layer of Radarr, a movie collection manager. It
covers:

- the typed SQL predicate builders (`SqlBuilderExtensions`);
- the paging specification and its filters (`PagingSpec`, `WhereEqualPagingFilter`,
  `WhereInPagingFilter`);
- the repositories of movies, alternative titles, movie files, history, the blacklist,
  background commands and configuration;
- the paging-request shaping of the log endpoints (both API versions) and of the
  wanted/cutoff endpoint.

The model has two layers that are deliberately not connected:

- **The text layer.** It describes what a repository puts into Dapper's `SqlBuilder`:
  clause text, joins, selects and the parameter bag. Every clause is a function of the
  table, the column and a generated parameter name only. The caller's value goes into
  the parameter bag under exactly that name and never into the clause text. This is the
  injection-safety property of the builders. The GUID the source uses for a parameter
  name is replaced by `NameSupply`, a counter whose every value gives a new name. With
  the counter, name freshness is a proved invariant (`SqlBuilder.FreshFor`) rather than a
  probabilistic one.
- **The semantic layer.** Each table is an in-memory sequence of records, in table order:
  - a finder is a filter over that sequence, stated as "returns exactly the records
    satisfying P";
  - a mutator (`Trim`, `OrphanStarted`, `Start`, `End`, `SetFileId`, `DeleteForMovie`,
    `Upsert`) is a method of a class holding the table, whose postcondition gives the
    whole new table as a function of the old one;
  - lemmas then prove what the source promises about those functions: nothing else
    changes, idempotence, round trips, stability of the date sort.

Movie reads go through the joined base query. The profile is inner-joined, and the
alternative titles and movie files are left-joined. `Map`/`GetResults` then folds the
joined rows into one movie per id. The fold is an imperative loop over a dictionary,
proved equal to the specification function `Reduce`. The paged listings cut their page
from the joined rows before folding, and count joined rows for their total, as
`COUNT(*)` over the same joins does.

Times (release dates, command timestamps, history dates) are integers. The clock reading
`now` is a parameter.

## Model

Source paths are relative to the repository root.

| member | source | states |
|---|---|---|
| SqlBuilders.ParamNamesDistinct | src/NzbDrone.Core/Datastore/Extensions/BuilderExtensions.cs:32 | two different draws from the name supply never yield the same parameter name |
| SqlBuilders.ParamNameIsIdentifier | src/NzbDrone.Core/Datastore/Extensions/BuilderExtensions.cs:32 | a generated name is a single identifier token, so `@name` cannot change the shape of a clause |
| SqlBuilders.FreshAfterDraw | src/NzbDrone.Core/Datastore/Extensions/BuilderExtensions.cs:30-35 | the drawn name was not yet bound, and binding it leaves every later name of the supply unbound |
| SqlBuilders.NameSupply.NewName | src/NzbDrone.Core/Datastore/Extensions/BuilderExtensions.cs:32 | hands out the name of the current counter value and advances the counter by one |
| SqlBuilders.SqlBuilder.constructor | src/NzbDrone.Core/Movies/MovieRepository.cs:44 | a new builder has no selects, joins, clauses or parameters |
| SqlBuilders.SqlBuilder.Select | src/NzbDrone.Core/Datastore/Extensions/BuilderExtensions.cs:51-59 | appends one select item, changes nothing else and returns the same builder |
| SqlBuilders.SqlBuilder.Join | src/NzbDrone.Core/Movies/MovieRepository.cs:45 | appends one inner join, changes nothing else and returns the same builder |
| SqlBuilders.SqlBuilder.LeftJoin | src/NzbDrone.Core/Movies/MovieRepository.cs:46-47 | appends one left join, changes nothing else and returns the same builder |
| SqlBuilders.SqlBuilder.Where | src/NzbDrone.Core/Datastore/Extensions/BuilderExtensions.cs:61-66 | appends one conjunctive clause and merges the clause's parameter bag into the builder's |
| SqlBuilders.SqlBuilder.OrWhere | src/NzbDrone.Core/Datastore/Extensions/BuilderExtensions.cs:96-101 | appends one disjunctive clause and merges the clause's parameter bag into the builder's |
| BuilderExtensions.FragmentRefersToName | src/NzbDrone.Core/Datastore/Extensions/BuilderExtensions.cs:61-115 | every one-parameter fragment (`=`, `!=`, `>=`, `<`, `IN`, `instr`, `LIKE`) contains `@name` for its generated name |
| BuilderExtensions.BetweenRefersToNames | src/NzbDrone.Core/Datastore/Extensions/BuilderExtensions.cs:117-133 | a BETWEEN fragment names the lower bound's parameter first and the upper bound's after ` AND ` |
| BuilderExtensions.QueryDetails.constructor | src/NzbDrone.Core/Datastore/Extensions/BuilderExtensions.cs:20-23 | new details hold the table and column and an empty parameter bag |
| BuilderExtensions.QueryDetails.AddParameter | src/NzbDrone.Core/Datastore/Extensions/BuilderExtensions.cs:30-35 | draws a new name, binds the value with its `DbType` under it, and keeps the bag free of every later name |
| BuilderExtensions.GetQueryDetails | src/NzbDrone.Core/Datastore/Extensions/BuilderExtensions.cs:38-49 | the table is the entity type's mapped table, the column is the selected member, and the bag binds only the value, under the first parameter name |
| BuilderExtensions.WhereForm | src/NzbDrone.Core/Datastore/Extensions/BuilderExtensions.cs:61-115 | one one-parameter clause of the given form is appended, with text built from table, column and a name unbound before the call; the value is bound under that name and nothing else changes |
| BuilderExtensions.SelectAll | src/NzbDrone.Core/Datastore/Extensions/BuilderExtensions.cs:51-54 | selects `*` and changes nothing else |
| BuilderExtensions.SelectCount | src/NzbDrone.Core/Datastore/Extensions/BuilderExtensions.cs:56-59 | selects `COUNT(*)` and changes nothing else |
| BuilderExtensions.WhereEqual | src/NzbDrone.Core/Datastore/Extensions/BuilderExtensions.cs:61-66 | appends `"table"."field" = @name` as a conjunct, binds the value under the new name and returns the given builder |
| BuilderExtensions.WhereNotEqual | src/NzbDrone.Core/Datastore/Extensions/BuilderExtensions.cs:68-73 | appends `!= @name` as a conjunct, with the value bound under the new name |
| BuilderExtensions.WhereGreaterThanOrEqualTo | src/NzbDrone.Core/Datastore/Extensions/BuilderExtensions.cs:75-80 | appends `>= @name` as a conjunct, with the value bound under the new name |
| BuilderExtensions.WhereLessThan | src/NzbDrone.Core/Datastore/Extensions/BuilderExtensions.cs:82-87 | appends `< @name` as a conjunct, with the value bound under the new name |
| BuilderExtensions.WhereIn | src/NzbDrone.Core/Datastore/Extensions/BuilderExtensions.cs:89-94 | appends `IN @name` as a conjunct; the whole collection is one parameter tagged with the multi-value `DbType` -1 |
| BuilderExtensions.OrWhereIn | src/NzbDrone.Core/Datastore/Extensions/BuilderExtensions.cs:96-101 | as `WhereIn`, but the clause is a disjunct |
| BuilderExtensions.WhereSubstringOf | src/NzbDrone.Core/Datastore/Extensions/BuilderExtensions.cs:103-108 | appends `instr(@name, column)`, the reverse containment (the column's text occurs in the value) |
| BuilderExtensions.WhereContains | src/NzbDrone.Core/Datastore/Extensions/BuilderExtensions.cs:110-115 | appends a LIKE clause with the parameter between two `%` wildcards (the column contains the value) |
| BuilderExtensions.WhereBetweenKind | src/NzbDrone.Core/Datastore/Extensions/BuilderExtensions.cs:117-133 | draws two different names, binds lower under the first and upper under the second, both unbound before, in one BETWEEN clause |
| BuilderExtensions.WhereBetween | src/NzbDrone.Core/Datastore/Extensions/BuilderExtensions.cs:117-124 | the BETWEEN clause is a conjunct |
| BuilderExtensions.OrWhereBetween | src/NzbDrone.Core/Datastore/Extensions/BuilderExtensions.cs:126-133 | the BETWEEN clause is a disjunct |
| BuilderExtensions.WhereNull | src/NzbDrone.Core/Datastore/Extensions/BuilderExtensions.cs:135-140 | appends `IS NULL`; a name is drawn but the builder's parameters are unchanged |
| BuilderExtensions.WhereNotNull | src/NzbDrone.Core/Datastore/Extensions/BuilderExtensions.cs:142-147 | appends `IS NOT NULL`; a name is drawn but the builder's parameters are unchanged |
| Paging.PagingFilterRefersToId | src/NzbDrone.Core/Datastore/PagingSpec.cs:59-74 | the bracket-quoted `=` and `IN` clause texts contain `@id` for the filter's id |
| Paging.PagingFilter.WhereEqual | src/NzbDrone.Core/Datastore/PagingSpec.cs:39-57 | fixes the table from the entity type, draws the id once, binds the value under it, kind equality |
| Paging.PagingFilter.WhereIn | src/NzbDrone.Core/Datastore/PagingSpec.cs:65-69 | the same construction with kind `IN` |
| Paging.PagingFilter.ApplyToBuilder | src/NzbDrone.Core/Datastore/PagingSpec.cs:59-74 | adds exactly one conjunct naming the id, binds the value under the id, and keeps the builder fresh for the supply |
| Paging.PagingSpec.constructor | src/NzbDrone.Core/Datastore/PagingSpec.cs:19-22 | a new spec has an empty filter list (and no records, default sort) |
| Paging.PagingSpec.AddFilter | src/NzbDrone.Api/Wanted/MovieCutoffModule.cs:33 | appends the filter to `FilterExpressions`; every other field keeps its value |
| PagingResources.MapToPagingSpec | src/NzbDrone.Api/Wanted/MovieCutoffModule.cs:27 | a new spec copying page and size, with the given default sort key and direction standing in for unset ones, and no filters |
| MovieResults.AltTitlesOf | src/NzbDrone.Core/Movies/MovieRepository.cs:61-64 | the titles collected for an id are exactly the non-null titles of that id's rows |
| MovieResults.Entry | src/NzbDrone.Core/Movies/MovieRepository.cs:49-66 | an id's entry has the profile and file of its first row and the movie's titles followed by every collected title |
| MovieResults.Reduce | src/NzbDrone.Core/Movies/MovieRepository.cs:69-82 | one movie per id, no id twice, exactly the ids of the rows, each with the columns of one of its rows, never more movies than rows |
| MovieResults.ReduceHead | src/NzbDrone.Core/Movies/MovieRepository.cs:69-82 | the first movie `GetResults` returns is the first row's movie, with that row's columns |
| MovieResults.Map | src/NzbDrone.Core/Movies/MovieRepository.cs:49-67 | the first row of an id stores the movie with that row's profile and file; a later row reuses the entry; a non-null title is appended; other entries are unchanged |
| MovieResults.FoldStep | src/NzbDrone.Core/Movies/MovieRepository.cs:49-67 | folding one more row with `Map` keeps the dictionary equal to the fold of all rows seen |
| MovieResults.GetResults | src/NzbDrone.Core/Movies/MovieRepository.cs:69-82 | the dictionary values, in first-seen order, are `Reduce` of the joined rows |
| MovieJoin.LeftMatches | src/NzbDrone.Core/Movies/MovieRepository.cs:46-47 | a left join yields the matching rows, or one null partner when nothing matches |
| MovieJoin.MovieRows | src/NzbDrone.Core/Movies/MovieRepository.cs:44-47 | a movie's joined rows are exactly its profile with each title partner and each file partner |
| MovieJoin.JoinRows | src/NzbDrone.Core/Movies/MovieRepository.cs:44-47 | the base query yields exactly the rows the three joins allow, for stored movies |
| MovieJoin.MovieHasRow | src/NzbDrone.Core/Movies/MovieRepository.cs:45 | a movie appears in the join if and only if its profile exists (inner join) |
| MovieJoin.Query | src/NzbDrone.Core/Movies/MovieRepository.cs:69-82 | a query returns no id twice, and returns an id exactly when some joined row of it satisfies the WHERE |
| MovieJoin.QueryByMovie | src/NzbDrone.Core/Movies/MovieRepository.cs:44-82 | a WHERE on the movie's own columns returns exactly the stored movies satisfying it that have a profile |
| MovieJoin.FirstKeptRow | src/NzbDrone.Core/Movies/MovieRepository.cs:44-47 | the first joined row a movie predicate keeps belongs to the first stored movie that satisfies it and has a profile |
| MovieJoin.QueryHead | src/NzbDrone.Core/Movies/MovieRepository.cs:69-82 | the first movie a query on movie columns returns has the columns of the first stored movie that satisfies it and has a profile |
| MovieJoin.WindowKeepsIds | src/NzbDrone.Core/Movies/MovieRepository.cs:179 | a movie on a page of the folded rows is a movie of the whole fold |
| MovieRepositories.AdmitsByColumns | src/NzbDrone.Core/Datastore/PagingSpec.cs:61 | paging filters read only a movie's own columns |
| MovieRepositories.FixedNamesNotGenerated | src/NzbDrone.Core/Movies/MovieRepository.cs:159-160 | the fixed names `Start` and `End` never clash with a generated name |
| MovieRepositories.MovieRepository.constructor | src/NzbDrone.Core/Movies/MovieRepository.cs:36-42 | the repository holds the given movie table |
| MovieRepositories.MovieRepository.BuilderBase | src/NzbDrone.Core/Movies/MovieRepository.cs:44-47 | a new builder with the profile inner join and the two left joins, in that order, and nothing else |
| MovieRepositories.MovieRepository.Find | src/NzbDrone.Core/Movies/MovieRepository.cs:109-153 | a finder on movie columns returns exactly the matching stored movies with a profile, one per id |
| MovieRepositories.MovieRepository.MoviePathExists | src/NzbDrone.Core/Movies/MovieRepository.cs:109-112 | true exactly when a stored movie with a profile has this path |
| MovieRepositories.MovieRepository.FindByTitles | src/NzbDrone.Core/Movies/MovieRepository.cs:114-118 | the movies whose clean title, or one of whose alternative titles' clean titles, is listed; no id twice |
| MovieRepositories.MovieRepository.FindByTitleInexact | src/NzbDrone.Core/Movies/MovieRepository.cs:120-123 | as written: the movies whose id's decimal text occurs inside the given title |
| MovieRepositories.MovieRepository.FindByTmdbId | src/NzbDrone.Core/Movies/MovieRepository.cs:131-134 | none exactly when no stored movie with a profile has this TMDb id; otherwise the first such movie in table order |
| MovieRepositories.MovieRepository.FindByTmdbIds | src/NzbDrone.Core/Movies/MovieRepository.cs:136-139 | exactly the movies whose TMDb id is listed |
| MovieRepositories.MovieRepository.GetMoviesByFileId | src/NzbDrone.Core/Movies/MovieRepository.cs:141-144 | exactly the movies recording this file id |
| MovieRepositories.MovieRepository.FindByTitleSlug | src/NzbDrone.Core/Movies/MovieRepository.cs:151-154 | none exactly when no stored movie with a profile has this slug; otherwise the first such movie in table order |
| MovieRepositories.MovieRepository.FindByPath | src/NzbDrone.Core/Movies/MovieRepository.cs:212-215 | none exactly when no stored movie with a profile has this path; otherwise the first such movie in table order |
| MovieRepositories.MovieRepository.FirstOf | src/NzbDrone.Core/Movies/MovieRepository.cs:69-82 | `FirstOrDefault` of a finder: none exactly when nothing matches, otherwise the first stored movie that matches and has a profile, the one the first joined row brings |
| MovieRepositories.MovieRepository.MoviesBetweenDates | src/NzbDrone.Core/Movies/MovieRepository.cs:156-168 | a movie is listed when its cinema or physical release lies in the window, and, unless unmonitored movies are included, it is monitored |
| MovieRepositories.MovieRepository.MoviesBetweenDatesBuilder | src/NzbDrone.Core/Movies/MovieRepository.cs:156-165 | the raw date clause binds `Start` and `End`; `Monitored = 1` is added only when unmonitored movies are excluded |
| MovieRepositories.MovieRepository.MoviesWithFiles | src/NzbDrone.Core/Movies/MovieRepository.cs:170-173 | as written: every movie with a profile, whatever the argument |
| MovieRepositories.MovieRepository.WithoutFiles | src/NzbDrone.Core/Movies/MovieRepository.cs:175 | exactly the movies with file id 0 that pass the paging filters, one per id |
| MovieRepositories.MovieRepository.WithoutFilesRows | src/NzbDrone.Core/Movies/MovieRepository.cs:175-180 | exactly the joined rows with file id 0 that pass the filters; folded, they give the without-files listing |
| MovieRepositories.MovieRepository.CutoffUnmet | src/NzbDrone.Core/Movies/MovieRepository.cs:185-187 | corrected reading (see Findings): exactly the movies with a joined row meeting `MovieFileId = 0`, a below-cutoff quality in the joined `MovieFiles` row, and the filters |
| MovieRepositories.MovieRepository.CutoffUnmetRows | src/NzbDrone.Core/Movies/MovieRepository.cs:185-192 | exactly the joined rows the cutoff clause keeps; folded, they give the cutoff listing |
| MovieRepositories.MovieRepository.GetMoviesWithoutFilesBuilder | src/NzbDrone.Core/Movies/MovieRepository.cs:175 | the base joins plus `MovieFileId = @p` with 0 bound under a new name |
| MovieRepositories.MovieRepository.GetMoviesWhereCutoffUnmetBuilder | src/NzbDrone.Core/Movies/MovieRepository.cs:185-187 | the without-files clause and then the cutoff clause, both conjuncts |
| MovieRepositories.MovieRepository.SetFileId | src/NzbDrone.Core/Movies/MovieRepository.cs:146-149 | only the `MovieFileId` of the movie with this id changes |
| MovieRepositories.MovieRepository.WithoutFilesQueries | src/NzbDrone.Core/Movies/MovieRepository.cs:179-180 | two fresh, distinct builders, selecting `*` and `COUNT(*)`, with the same joins and the same `MovieFileId = 0` clause under consecutive drawn names |
| MovieRepositories.MovieRepository.CutoffUnmetQueries | src/NzbDrone.Core/Movies/MovieRepository.cs:191-192 | the same for the cutoff listing: both builders carry both conjuncts |
| MovieRepositories.MovieRepository.MoviesWithoutFiles | src/NzbDrone.Core/Movies/MovieRepository.cs:177-183 | the records are the LIMIT/OFFSET page of the joined rows, folded into movies; the total is `COUNT(*)` of the joined rows; the two queries come from two fresh builders with the same joins and clause, drawing consecutive names; the request fields are kept |
| MovieRepositories.MovieRepository.MoviesWhereCutoffUnmet | src/NzbDrone.Core/Movies/MovieRepository.cs:189-195 | as for the without-files listing, over the rows the cutoff clause keeps, with two fresh builders carrying both conjuncts |
| MovieRepositories.TitleMatches | src/NzbDrone.Core/Movies/MovieRepository.cs:116-117 | the two OR-ed `IN` clauses match a movie exactly when its own or an alternative clean title is listed |
| MovieRepositories.TitleListedHasRow | src/NzbDrone.Core/Movies/MovieRepository.cs:116-117 | a movie listed by an alternative title has a joined row carrying that title |
| MovieRepositories.NoDigitNoNumber | src/NzbDrone.Core/Movies/MovieRepository.cs:122 | a text without digits contains no number's text |
| MovieRepositories.TitleInexactNeedsDigit | src/NzbDrone.Core/Movies/MovieRepository.cs:122 | a title without digits finds no movie by `FindByTitleInexact` |
| MovieRepositories.CutoffUnmetEmptyWhenConsistent | src/NzbDrone.Core/Movies/MovieRepository.cs:185-187 | under the corrected reading of the quality column, the `MovieFileId = 0` conjunct leaves the cutoff listing empty whenever stored file ids agree with the file table |
| MovieRepositories.SetFileIdThenFound | src/NzbDrone.Core/Movies/MovieRepository.cs:141-149 | after `SetFileId(f, id)`, `GetMoviesByFileId(f)` finds the movie |
| MovieRepositories.BaseJoinsTables | src/NzbDrone.Core/Movies/MovieRepository.cs:44-47 | the base query names `Movies`, `Profiles`, `AlternativeTitles` and `MovieFiles`, and no table `MovieFile` |
| MovieRepositories.CutoffClauseNamesUnjoinedTable | src/NzbDrone.Core/Movies/MovieRepository.cs:197-210 | as written, the cutoff clause is `()` without pairs and otherwise reads `[MovieFile].[Quality]` |
| MovieRepositories.CutoffUnmetWithoutPairs | src/NzbDrone.Core/Movies/MovieRepository.cs:197-210 | corrected reading: without any pair the clause is an empty disjunction and the cutoff listing is empty |
| MovieRepositories.WithoutFilesPageListed | src/NzbDrone.Core/Movies/MovieRepository.cs:179-180 | every movie on a page is in the without-files listing, and the total is at least the number of listed movies |
| MovieRepositories.CutoffUnmetPageListed | src/NzbDrone.Core/Movies/MovieRepository.cs:191-192 | every movie on a page is in the cutoff listing, and the total is at least the number of listed movies |
| QualityCutoff.ProfileClauses | src/NzbDrone.Core/Movies/MovieRepository.cs:203-206 | one disjunct per quality id of a profile, in order |
| QualityCutoff.Clauses | src/NzbDrone.Core/Movies/MovieRepository.cs:201-207 | as many disjuncts as (profile, quality id) pairs |
| QualityCutoff.ClausesHavePair | src/NzbDrone.Core/Movies/MovieRepository.cs:201-207 | every pair contributes its disjunct |
| QualityCutoff.ClausesComeFromPairs | src/NzbDrone.Core/Movies/MovieRepository.cs:201-207 | every disjunct comes from a pair |
| QualityCutoff.CutoffWhere | src/NzbDrone.Core/Movies/MovieRepository.cs:197-210 | one pair of parentheses around the disjuncts, containing every pair's disjunct, and `()` for no pairs |
| QualityCutoff.ClauseReadsMovieFile | src/NzbDrone.Core/Movies/MovieRepository.cs:205 | every disjunct reads the quality through the name `[MovieFile]` |
| QualityCutoff.PartInParenthesizedJoin | src/NzbDrone.Core/Movies/MovieRepository.cs:209 | a joined part stays inside the parenthesized join |
| QualityCutoff.BuildQualityCutoffWhereClause | src/NzbDrone.Core/Movies/MovieRepository.cs:197-210 | the nested loops produce `CutoffWhere` |
| QualityCutoff.StoredQualityMatches | src/NzbDrone.Core/Movies/MovieRepository.cs:205 | a stored quality document holding quality q matches q's LIKE pattern |
| QualityCutoff.PatternMatchesOnlyItsQuality | src/NzbDrone.Core/Movies/MovieRepository.cs:205 | q's pattern matches a serialized id b if and only if q = b, so quality 1 does not match 10 |
| Commands.Trimmed | src/NzbDrone.Core/Messaging/Commands/CommandRepository.cs:28-33 | exactly the commands not ended more than a day ago remain; a command that never ended remains |
| Commands.Orphan | src/NzbDrone.Core/Messaging/Commands/CommandRepository.cs:37 | a started command becomes orphaned and ends now; any other is unchanged; identity fields are kept |
| Commands.OrphanedAt | src/NzbDrone.Core/Messaging/Commands/CommandRepository.cs:35-49 | the sweep maps every record through `Orphan` and leaves no command started |
| Commands.WithFields | src/NzbDrone.Core/Messaging/Commands/CommandRepository.cs:73-81 | exactly the listed fields come from the new command; every other field is the stored one |
| Commands.Updated | src/NzbDrone.Core/Messaging/Commands/CommandRepository.cs:73-81 | only the record with the command's id changes, by `WithFields` |
| Commands.CommandRepository.constructor | src/NzbDrone.Core/Messaging/Commands/CommandRepository.cs:23-26 | the repository holds the given command table |
| Commands.CommandRepository.Trim | src/NzbDrone.Core/Messaging/Commands/CommandRepository.cs:28-33 | the table becomes `Trimmed` of the old table |
| Commands.CommandRepository.OrphanStarted | src/NzbDrone.Core/Messaging/Commands/CommandRepository.cs:35-49 | the table becomes `OrphanedAt` of the old table |
| Commands.CommandRepository.SetFields | src/NzbDrone.Core/Messaging/Commands/CommandRepository.cs:75 | the table becomes `Updated` with the listed fields |
| Commands.CommandRepository.Start | src/NzbDrone.Core/Messaging/Commands/CommandRepository.cs:73-76 | writes `StartedAt` and `Status` only |
| Commands.CommandRepository.End | src/NzbDrone.Core/Messaging/Commands/CommandRepository.cs:78-81 | writes `EndedAt`, `Status`, `Duration` and `Exception` only |
| Commands.CommandRepository.FindCommands | src/NzbDrone.Core/Messaging/Commands/CommandRepository.cs:51-54 | exactly the commands with this name |
| Commands.CommandRepository.FindQueuedOrStarted | src/NzbDrone.Core/Messaging/Commands/CommandRepository.cs:56-61 | exactly the commands with this name that are queued or started |
| Commands.CommandRepository.QueuedCommands | src/NzbDrone.Core/Messaging/Commands/CommandRepository.cs:63-66 | exactly the queued commands |
| Commands.CommandRepository.StartedCommands | src/NzbDrone.Core/Messaging/Commands/CommandRepository.cs:68-71 | exactly the started commands |
| Commands.OrphanThenNoneStarted | src/NzbDrone.Core/Messaging/Commands/CommandRepository.cs:37 | after the orphan sweep, `Started()` finds nothing |
| Commands.TrimIdempotent | src/NzbDrone.Core/Messaging/Commands/CommandRepository.cs:28-33 | trimming twice at the same time removes nothing more |
| Commands.OrphanIdempotent | src/NzbDrone.Core/Messaging/Commands/CommandRepository.cs:35-49 | a second sweep, at any time, changes nothing |
| Commands.StartThenEnd | src/NzbDrone.Core/Messaging/Commands/CommandRepository.cs:73-81 | after `Start` then `End`, the record has the start time, the end status and end time, and its original queue time |
| HistoryRepositories.MostRecent | src/NzbDrone.Core/History/HistoryRepository.cs:40-45 | none exactly for no records; otherwise a record with the greatest date, the first such in table order |
| HistoryRepositories.InsertByDate | src/NzbDrone.Core/History/HistoryRepository.cs:117 | insertion adds exactly the one record |
| HistoryRepositories.InsertByDateSorted | src/NzbDrone.Core/History/HistoryRepository.cs:117 | insertion keeps a sequence ascending by date |
| HistoryRepositories.SortByDate | src/NzbDrone.Core/History/HistoryRepository.cs:117 | `OrderBy(Date)` is ascending and a permutation |
| HistoryRepositories.SortKeepsRecords | src/NzbDrone.Core/History/HistoryRepository.cs:117 | the sort returns each record as often as it was given |
| HistoryRepositories.InsertKeepsDateOrder | src/NzbDrone.Core/History/HistoryRepository.cs:117 | an inserted record goes after the records of its own date |
| HistoryRepositories.SortByDateStable | src/NzbDrone.Core/History/HistoryRepository.cs:117 | the sort is stable: each date's records keep table order |
| HistoryRepositories.SortByDateSpec | src/NzbDrone.Core/History/HistoryRepository.cs:117 | ascending, a permutation, and stable for every date |
| HistoryRepositories.WithProfiles | src/NzbDrone.Core/History/HistoryRepository.cs:95-97 | the rows of a record and a movie joined to each profile of the movie |
| HistoryRepositories.WithMovies | src/NzbDrone.Core/History/HistoryRepository.cs:95-97 | the rows of a record joined to each movie of its movie id |
| HistoryRepositories.PagedJoin | src/NzbDrone.Core/History/HistoryRepository.cs:79-97 | exactly the records joined to a stored movie of their id and its profile, each with both attached |
| HistoryRepositories.PagedRowsHaveMovie | src/NzbDrone.Core/History/HistoryRepository.cs:79-97 | every joined row carries a stored movie of its own id, with a stored profile |
| HistoryRepositories.HistoryRepository.constructor | src/NzbDrone.Core/History/HistoryRepository.cs:28-31 | the repository holds the given history table |
| HistoryRepositories.HistoryRepository.GetBestQualityInHistory | src/NzbDrone.Core/History/HistoryRepository.cs:33-38 | one quality per record of the movie, in table order |
| HistoryRepositories.HistoryRepository.FindByDownloadId | src/NzbDrone.Core/History/HistoryRepository.cs:47-50 | exactly the records with this download id |
| HistoryRepositories.HistoryRepository.MostRecentForDownloadId | src/NzbDrone.Core/History/HistoryRepository.cs:40-45 | a record of the download with the greatest date, or none exactly when the download has no record |
| HistoryRepositories.HistoryRepository.FindDownloadHistory | src/NzbDrone.Core/History/HistoryRepository.cs:52-58 | the movie's records of this quality that are grabs, download failures or download-folder imports |
| HistoryRepositories.HistoryRepository.GetByMovieId | src/NzbDrone.Core/History/HistoryRepository.cs:60-72 | exactly the movie's records of the optional event type, each as often as stored; no order promised |
| HistoryRepositories.HistoryRepository.DeleteForMovie | src/NzbDrone.Core/History/HistoryRepository.cs:74-77 | the table keeps exactly the other movies' records, in order |
| HistoryRepositories.HistoryRepository.MostRecentForMovie | src/NzbDrone.Core/History/HistoryRepository.cs:101-106 | a record of the movie with the greatest date, or none exactly when the movie has no record |
| HistoryRepositories.HistoryRepository.Since | src/NzbDrone.Core/History/HistoryRepository.cs:108-118 | the records dated on or after `date`, of the optional event type, each as often as stored, ascending by date |
| HistoryRepositories.DeleteForMovieRemovesAll | src/NzbDrone.Core/History/HistoryRepository.cs:74-77 | after the delete the movie has no record |
| HistoryRepositories.DeleteForMovieKeepsOthers | src/NzbDrone.Core/History/HistoryRepository.cs:74-77 | after the delete every other movie's records are as before, in order |
| HistoryRepositories.SinceStable | src/NzbDrone.Core/History/HistoryRepository.cs:108-118 | records of equal date come out of `Since` in table order |
| HistoryRepositories.MostRecentPrefersFirst | src/NzbDrone.Core/History/HistoryRepository.cs:101-106 | of two records with the same date the first wins |
| BlacklistRepositories.BlacklistedByTitle | src/NzbDrone.Core/Blacklisting/BlacklistRepository.cs:24-29 | exactly the movie's entries whose source title contains the text |
| BlacklistRepositories.BlacklistedByTorrentInfoHash | src/NzbDrone.Core/Blacklisting/BlacklistRepository.cs:31-36 | exactly the movie's entries whose hash contains the text; an entry without a hash never matches |
| BlacklistRepositories.BlacklistedByMovie | src/NzbDrone.Core/Blacklisting/BlacklistRepository.cs:38-41 | exactly the movie's entries |
| BlacklistRepositories.EmptyTitleFindsMovie | src/NzbDrone.Core/Blacklisting/BlacklistRepository.cs:24-41 | the empty title finds all of the movie's entries, in the same order as `BlacklistedByMovie` |
| BlacklistRepositories.TitleSearchNarrows | src/NzbDrone.Core/Blacklisting/BlacklistRepository.cs:24-29 | a longer search text finds nothing a shorter text inside it misses |
| BlacklistRepositories.ExactTitleFound | src/NzbDrone.Core/Blacklisting/BlacklistRepository.cs:24-29 | an entry is found by its own source title |
| BlacklistRepositories.WithMovies | src/NzbDrone.Core/Blacklisting/BlacklistRepository.cs:49-51 | the rows of an entry joined to each movie of its movie id |
| BlacklistRepositories.PagedJoin | src/NzbDrone.Core/Blacklisting/BlacklistRepository.cs:43-58 | exactly the entries joined to a stored movie of their id; every row carries such a movie |
| BlacklistRepositories.PagedJoinKeepsStored | src/NzbDrone.Core/Blacklisting/BlacklistRepository.cs:58 | an entry whose movie is stored appears with that movie |
| AlternativeTitleRepositories.FindBySourceId | src/NzbDrone.Core/Movies/AlternativeTitles/AlternativeTitleRepository.cs:22-25 | the first title with this source id, or none exactly when no title has it |
| AlternativeTitleRepositories.FindBySourceIds | src/NzbDrone.Core/Movies/AlternativeTitles/AlternativeTitleRepository.cs:27-30 | exactly the titles whose source id is listed; an empty list finds nothing |
| AlternativeTitleRepositories.FindByMovieId | src/NzbDrone.Core/Movies/AlternativeTitles/AlternativeTitleRepository.cs:32-35 | exactly the movie's titles |
| AlternativeTitleRepositories.FindBySourceIdIsFirstOfList | src/NzbDrone.Core/Movies/AlternativeTitles/AlternativeTitleRepository.cs:22-30 | looking one id up is the first title the one-element list finds |
| MediaFileRepositories.GetFilesByMovie | src/NzbDrone.Core/MediaFiles/MediaFileRepository.cs:22-25 | exactly the movie's files |
| MediaFileRepositories.GetFilesWithoutMediaInfo | src/NzbDrone.Core/MediaFiles/MediaFileRepository.cs:27-30 | exactly the files whose media information is null; a file with it never appears |
| MediaFileRepositories.WithoutMediaInfoByMovie | src/NzbDrone.Core/MediaFiles/MediaFileRepository.cs:22-30 | the two finders commute |
| MediaFileRepositories.MediaInfoPartition | src/NzbDrone.Core/MediaFiles/MediaFileRepository.cs:27-30 | the files without media information and those with it add up to the table |
| ConfigRepositories.Get | src/NzbDrone.Core/Configuration/ConfigRepository.cs:21-27 | none exactly when no row has the key; a found row has the key |
| ConfigRepositories.Replace | src/NzbDrone.Core/Configuration/ConfigRepository.cs:40 | the row with the id takes the new columns; every other row is kept |
| ConfigRepositories.ConfigRepository.constructor | src/NzbDrone.Core/Configuration/ConfigRepository.cs:16-19 | the repository holds the given table and next id |
| ConfigRepositories.ConfigRepository.Upsert | src/NzbDrone.Core/Configuration/ConfigRepository.cs:29-41 | a new key is inserted under the next id; a stored key keeps its row and id and takes the value; the table's uniqueness constraints are preserved |
| ConfigRepositories.FoundOwnsId | src/NzbDrone.Core/Configuration/ConfigRepository.cs:38-40 | in a valid table the row found for a key is the only row with its id |
| ConfigRepositories.UpsertThenGet | src/NzbDrone.Core/Configuration/ConfigRepository.cs:29-41 | after `Upsert(k, v)`, `Get(k)` finds a row with k and v, keeping the old id or taking the next one |
| ConfigRepositories.KeyUniqueAtMostOne | src/NzbDrone.Core/Configuration/ConfigRepository.cs:25 | a valid table holds at most one row per key, so `QuerySingleOrDefault` never throws on it |
| ConfigRepositories.UpsertKeepsOtherKeys | src/NzbDrone.Core/Configuration/ConfigRepository.cs:29-41 | `Get` of every other key answers as before |
| ConfigRepositories.UpsertKeepsValid | src/NzbDrone.Core/Configuration/ConfigRepository.cs:29-41 | ids and keys stay unique and below the next id |
| LogLevels.LevelFilterFor | src/Radarr.Api.V3/Logs/LogModule.cs:31-51 | `fatal` is equality with `Fatal`; another known level is `IN` over the ladder down to it; an unknown name adds no filter |
| LogLevels.LevelFilterAdmits | src/Radarr.Api.V3/Logs/LogModule.cs:33-50 | a requested level admits exactly the entries at its level or more severe |
| LogLevels.LadderGrows | src/Radarr.Api.V3/Logs/LogModule.cs:36-50 | each less severe level admits a strictly larger prefix of the ladder |
| LogLevels.AddLevelFilter | src/Radarr.Api.V3/Logs/LogModule.cs:29-52 | appends at most one filter on `Logs.Level`, the one the level calls for; nothing else changes |
| LogModuleV3.LevelRequest | src/Radarr.Api.V3/Logs/LogModule.cs:27 | the value of the first filter keyed `level`, wherever it stands, or none exactly when there is none |
| LogModuleV3.QuerySortKey | src/Radarr.Api.V3/Logs/LogModule.cs:22-25 | `time` becomes `id`; no other key changes; `time` never reaches the store |
| LogModuleV3.ResponseSortKey | src/Radarr.Api.V3/Logs/LogModule.cs:56-59 | `id` is reported as `time`; no other key changes |
| LogModuleV3.SortKeyRoundTrip | src/Radarr.Api.V3/Logs/LogModule.cs:22-59 | a `time` request is reported as `time`, and so is an `id` request |
| LogModuleV3.GetLogs | src/Radarr.Api.V3/Logs/LogModule.cs:18-62 | without a requested sort the spec takes the helper's default `Id` ascending; the sort key is rewritten and at most the one level filter is added; the response reports `id` as `time` |
| LogModule.FirstLevelRequest | src/NzbDrone.Api/Logs/LogModule.cs:27-29 | a level is seen only when the first filter is keyed `level` |
| LogModule.FirstLevelAgreesWithV3 | src/NzbDrone.Api/Logs/LogModule.cs:27-29 | whenever the older endpoint sees a level, version 3 sees the same one |
| LogModule.SecondLevelIgnored | src/NzbDrone.Api/Logs/LogModule.cs:27-29 | a level filter after another filter is ignored by the older endpoint only |
| LogModule.GetLogs | src/NzbDrone.Api/Logs/LogModule.cs:18-55 | the same default sort; the spec carries the rewritten sort key and at most one level filter; the response is not rewritten back |
| MovieCutoffModule.MonitoredWanted | src/NzbDrone.Api/Wanted/MovieCutoffModule.cs:29-38 | false exactly when the first `monitored` filter holds exactly `false`; true when there is none |
| MovieCutoffModule.OnlyExactFalseListsUnmonitored | src/NzbDrone.Api/Wanted/MovieCutoffModule.cs:31-38 | any other value, `False` included, lists monitored movies |
| MovieCutoffModule.MonitoredFilterAdmits | src/NzbDrone.Api/Wanted/MovieCutoffModule.cs:33-37 | the one filter admits a movie exactly when its `Monitored` is the wanted value |
| MovieCutoffModule.GetCutoffUnmetMovies | src/NzbDrone.Api/Wanted/MovieCutoffModule.cs:25-43 | the spec sorts by `title` ascending unless the request says otherwise, carries exactly one `Monitored` filter, and is answered by the cutoff listing: a page of folded joined rows and their count |

## Left out

- `LogQuery`, `ToDictionary` and `GetPropertyValuePairs` in `BuilderExtensions.cs` are not modelled. They are console output and reflection over Dapper internals.
- The GUID parameter names are replaced by a counter (`NameSupply`). The source's names are unique only with high probability; the model's are unique by proof.
- Dapper's template rendering and the SQL engine are not modelled. The text layer and the semantic layer are not connected by an evaluator of SQL text.
- SQL `LIKE` is case-sensitive in the model, and `%` or `_` inside a bound value are taken literally. "Contains" is modelled as infix containment.
- `BasicRepository` (`Query`, `Delete`, `SetFields`, `Insert`, `Update`, `GetPagedRecords`, `GetPagedRecordCount`) is not part of this model. It is modelled as in-memory table operations.
- MovieRepositories.MovieRepository.MoviesWithoutFiles: the page is cut from the joined rows in table order. The spec's sort key and direction are not applied, because `GetPagedRecords` is not part of this model.
- MovieRepositories.MovieRepository.MoviesWhereCutoffUnmet: the same, the sort key and direction are not applied. It evaluates the corrected reading of the cutoff clause; the statement as built is rejected by the store (see Findings).
- MovieRepositories.MovieRepository.CutoffUnmet: evaluates `[MovieFile].[Quality]` as the quality of the joined `MovieFiles` row and `()` as an empty disjunction. The store rejects both as written (see Findings).
- CutoffUnmetEmptyWhenConsistent: holds for the corrected reading only. As written, the cutoff query fails before any listing exists (see Findings).
- `FindByImdbId` is not modelled. It depends on `Parser.NormalizeImdbId`, which is not part of this model.
- `All` and `AllMoviePaths` are not modelled. They are a raw projection and a join against the profile repository, which is not part of this model.
- Event publication is not modelled.
- `DateTime.UtcNow` is a parameter `now`. All times are integer seconds.
- `ApplyToPage`, `MapToPagingSpec`, `ILogService.Paged` and `IMovieCutoffService` are not part of this model. `MapToPagingSpec` is given the contract the endpoints rely on, and `ApplyToPage` copies the spec's paging fields into the response.
- LogModuleV3.GetLogs: the log records themselves are not modelled, because the log store is not part of this model. The spec's records are left empty.
- LogModuleV3.GetLogs: `MapToPagingSpec` is not part of this model. The call passes no sort defaults, so its default arguments apply; they are taken to be `Id` and ascending (`PagingResources.DefaultSortKey`, `PagingResources.DefaultSortDirection`).
- LogModule.GetLogs: the same assumption about the default sort of `MapToPagingSpec`.
- LogModule.GetLogs: as in version 3, the log records are not modelled.
- MovieCutoffModule.GetCutoffUnmetMovies: the cutoff service is replaced by a direct call to the repository's cutoff listing. The profiles' below-cutoff qualities are a parameter.
- Quality documents are compared as their serialized text (history, blacklist, movie files).
- The history event types beyond `Grabbed`, `DownloadFailed` and `DownloadFolderImported` have assumed names. `History.cs` is not part of this model.
- A null download id argument is not modelled; the argument is a string.
- ConfigRepositories.ConfigRepository.Upsert: the id `Insert` assigns is modelled as a counter kept next to the table. `QuerySingleOrDefault` throwing on several rows is modelled as `MoreThanOne`: `Upsert` then answers none and leaves the table unchanged.
- MovieResults.Map: the source mutates the shared `Movie` object held in the dictionary. The model stores the updated entry back as a value, so aliasing is not modelled.
- Concurrency is not modelled. Every operation is sequential.

## Findings

| source | as written | input that shows it | evidently intended | confidence | as-written member | corrected member |
|---|---|---|---|---|---|---|
| src/NzbDrone.Core/Movies/MovieRepository.cs:205 | each cutoff disjunct reads `[MovieFile].[Quality]`, but the base query joins `MovieFiles` and names no table `MovieFile` (lines 44-47), so the store rejects the column | one profile 1 with one quality id 4 below its cutoff: the clause contains `[MovieFile].[Quality]` | read the quality of the joined `MovieFiles` row | not executed; high | MovieRepositories.CutoffClauseNamesUnjoinedTable | MovieRepositories.MovieRepository.CutoffUnmet |
| src/NzbDrone.Core/Movies/MovieRepository.cs:209 | with no (profile, quality id) pair the clause is `()`, which is not a valid SQL expression | an empty list of below-cutoff qualities | no pair selects no movie | not executed; high | MovieRepositories.CutoffClauseNamesUnjoinedTable | MovieRepositories.CutoffUnmetWithoutPairs |

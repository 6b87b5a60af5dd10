# Verified model of the mu3ic server and its playlist client

A Dafny model of the parts of the music library that carry state, interleaving or
string algebra: the login rate limiter, the playlist tables with the client's editor on
top, the ingest of uploads into file storage, the migration runner, the search pattern,
the album views, the filename guesser and the UUIDs behind the storage keys. Each is
written in the form of the code it models, and what that code is for is proved for all
inputs, all runs or all interleavings. This checks everything:

    dafny verify --resource-limit 2000000 --verification-time-limit 0 dfyconfig.toml

| file | what it models |
|---|---|
| `RateLimit.dfy` | the token-bucket map, its sweeper, and the ideal private meter they refine |
| `Tables.dfy`, `PlaylistSql.dfy`, `PlaylistStore.dfy` | rows, what each transaction does to them, and the store that does it statement by statement |
| `Playlists.dfy`, `Positions.dfy`, `Tenancy.dfy` | runs of transactions: refinement to duplicate-free lists, the size of positions, isolation between users |
| `PlaylistEditor.dfy`, `EditorInFlight.dfy` | the optimistic ▲/▼ editor over the store, one request at a time and with requests that overlap |
| `FileStorage.dfy`, `PutProtocol.dfy` | temp-then-rename storage, call by call and step by step over any directory |
| `Ingest.dfy`, `IngestProtocol.dfy` | one ingest from start to finish, and many at once with faults and crashes |
| `Tracks.dfy`, `Uuid.dfy` | row conversion, and version-4 UUID text (section 5.4 of RFC 9562) |
| `Migrations.dfy` | one run of the migration runner, and many at once, with and without the advisory lock |
| `Search.dfy` | LIKE with an escape character (section 8.5 of ISO/IEC 9075-2) and the search built on it |
| `Albums.dfy` | the grouped album view and the listing of one album |
| `FilenameParser.dfy` | the guesser and a canonical printer |
| `Sequences.dfy`, `Order.dfy` | shared facts about sequences, sorting and string order |

How to read it:

* A transaction of `playlists.go` appears twice: as a function of the rows
  (`PlaylistSql`) and as a method of `PlaylistStore.Store` that runs its statements and is
  proved to compute that function. The lemmas are about the functions, hence about both.
  The same holds for the limiter, the storage and the migration runner.
* Everything outside the modelled code is an input: clock readings, failures of the
  disk, the database or the network, the random bytes of a UUID, tags read from a file,
  row ids taken from sequences.
* In the limiter tokens are measured in nanoseconds of refill, so one token is `cost`
  nanoseconds and the arithmetic is exact for every rate. Rate, burst and idle time are
  symbolic, under the one condition that an idle bucket is full before it is evicted.
* The protocols are transition systems: an inductive invariant, then every finite run.

Where the code and its comments differ, the model follows the code:

* `app/src/app/(tabs)/playlists/[id].tsx:49-50` says the screen cannot drift from the
  database. The reload that is meant to prevent it can fail as well, and then the swapped
  list stays: `PlaylistEditor.ScreenCanDrift` is such a case, and
  `PlaylistEditor.MoveDriftsExactlyWhen` says exactly when it happens. Overlapping taps can
  drift although every request succeeds (`EditorInFlight.TwoTapsAgreeExactlyInOrder`).
* A blank album artist asks `ListTracksByAlbum` for any artist
  (`server/internal/store/albums.go:55-56`), so the summaries of an album with blank and
  other album artists list some tracks twice. `Albums.PartitionExactlyWhen` gives the exact
  condition for the library and `Albums.CountIsRightExactlyWhen` for one summary; rows that
  came through an ingest meet both.
* `app/src/utils/parseFilename.ts:34` takes a number off a title only if the rest is one
  line, so printing and parsing again is not always a fixpoint:
  `FilenameParser.LineBreakIsLost` is a case and `FilenameParser.FixpointBySegments` the
  exact condition.
* A track number beyond 31 bits is stored as another number
  (`server/internal/store/tracks.go:161`, `Tracks.TrackNumberWraps`), and a title can be
  blank (`server/internal/library/ingest.go:86`, `Ingest.TitleCanBeBlank`); both have an
  exact condition.

## Model

| member | source | states |
|---|---|---|
| RateLimit.IpRateLimiter.Allow | server/internal/api/ratelimit.go:46-69 | one request turns the map into the refilled map less one token for this IP alone, and is admitted exactly when a whole token was there; buckets stay unshared objects |
| RateLimit.IpRateLimiter.Sweep | server/internal/api/ratelimit.go:71-84 | one tick deletes exactly the entries last seen before the cutoff, in whatever order they are visited |
| RateLimit.LevelOverTime | server/internal/api/ratelimit.go:56-61 | a capped refill may be split at any instant, so polling does not change what a bucket holds |
| RateLimit.LevelIsTightestWindow | server/internal/api/ratelimit.go:46-69 | the ideal meter's closed form is the least remaining allowance over all windows ending now, and never above the burst |
| RateLimit.RequestTracks | server/internal/api/ratelimit.go:46-69 | a request by any IP keeps the relation between the shared map and each IP's private meter, and answers the caller as that meter would |
| RateLimit.SweepTracks | server/internal/api/ratelimit.go:74-83 | a sweep keeps that relation, even with a clock sample older than the requests already served, because what it drops is full |
| RateLimit.SweepKeepsTheRecent | server/internal/api/ratelimit.go:74-83 | after any trace a sweep keeps an entry if and only if the last request of its IP is no older than the TTL |
| RateLimit.SharedEqualsPrivate | server/internal/api/ratelimit.go:46-84 | on every interleaving of requests from any IPs and sweeps each IP hears, call by call, what a private, never evicted, continuously refilled bucket says |
| RateLimit.AdmitsExactlyTheAllowance | server/internal/api/ratelimit.go:46-84 | on every such trace a request is admitted if and only if it leaves all windows of that IP's past within burst plus elapsed time |
| RateLimit.WindowBound | server/internal/api/ratelimit.go:46-84 | in any time window of any trace at most burst plus rate times its length is admitted for one IP |
| RateLimit.RetryAfterIsHonoured | server/internal/api/ratelimit.go:88-93 | a denied IP with no admission since is admitted on its next call a token's time later, however often it was denied in between |
| RateLimit.TokensStayInRange | server/internal/api/ratelimit.go:46-84 | in every reachable map tokens lie between zero and the burst and no bucket is from the future |
| RateLimit.AuthEndpoints | server/internal/api/ratelimit.go:17-22 | with the shipped constants: at most 5 plus elapsed seconds, and a retry after one second succeeds |
| RateLimit.FiveThenDenied | server/internal/api/ratelimit.go:17-69 | with the shipped constants a new IP has exactly five of its back-to-back requests admitted |
| PlaylistStore.Store.InsertTrack | server/internal/store/tracks.go:127-149 | adds the one row built from the new track and returns it, or fails and adds nothing |
| PlaylistStore.Store.CreatePlaylist | server/internal/store/playlists.go:58-69 | adds an empty playlist of that user and touches nothing else |
| PlaylistStore.Store.RenamePlaylist | server/internal/store/playlists.go:92-100 | changes the name of an owned playlist, otherwise no row is affected and the answer is no rows |
| PlaylistStore.Store.DeletePlaylist | server/internal/store/playlists.go:102-109 | removes an owned playlist with its membership rows by cascade, otherwise nothing |
| PlaylistStore.Store.AppendPosition | server/internal/store/playlists.go:171 | the position for an append is one above the largest, or zero for an empty playlist |
| PlaylistStore.Store.AddTrackToPlaylist | server/internal/store/playlists.go:148-180 | statement by statement, the add transaction: both ownership checks, then one row at the end unless it is there already |
| PlaylistStore.Store.RemoveTrackFromPlaylist | server/internal/store/playlists.go:185-204 | statement by statement, the remove transaction: the ownership check, then that row gone and no other |
| PlaylistStore.Store.SamePermutation | server/internal/store/playlists.go:240-249 | the length test and the seen/current loop accept exactly the duplicate-free lists of the right length over current ids |
| PlaylistStore.Store.ReorderPlaylist | server/internal/store/playlists.go:210-262 | renumbers row by row after an accepted check, and leaves all rows alone on either rejection |
| PlaylistStore.Store.Cursor | server/internal/store/playlists.go:122 | reading the least position first yields every row once with positions never falling, and without ties the one ORDER BY position view |
| PlaylistStore.Store.ListPlaylistTracks | server/internal/store/playlists.go:115-140 | the joined rows of an owned playlist in an order its positions allow, ties included, and no rows for any other playlist |
| Tables.OrderIsUnique | server/migrations/008_playlists.sql:4-7 | strictly increasing positions determine the order: gaps do not matter |
| Playlists.ShownList | server/internal/store/playlists.go:74-87 | positions of a playlist are distinct, its view is free of duplicates, and the count of GetPlaylist is the length of the view |
| Playlists.AcceptsPermutations | server/internal/store/playlists.go:240-249 | the reorder check lets through exactly the permutations of the current view |
| Playlists.RenumberingSetsOrder | server/internal/store/playlists.go:251-257 | after the update loop, whose intermediate states repeat positions, they are 0 to n-1 in the order asked for and other playlists keep theirs |
| Playlists.AddStep | server/internal/store/playlists.go:148-180 | add is append-if-absent on the list users see, with the same answer |
| Playlists.RemoveStep | server/internal/store/playlists.go:185-204 | remove is filter on that list, gaps notwithstanding |
| Playlists.MoveStep | server/internal/store/playlists.go:210-262 | an accepted reorder is replacement by a permutation, and everything else is refused unchanged |
| Playlists.DeleteStep | server/internal/store/playlists.go:102-109 | deleting a playlist removes one list and leaves the rest as they were |
| Playlists.DropTrackStep | server/migrations/008_playlists.sql:19 | the cascade from a deleted track filters it out of every list |
| Playlists.DropUserStep | server/migrations/008_playlists.sql:10-19 | the cascade from a deleted user removes that user's lists and tracks and no one else's |
| Playlists.RunRefines | server/internal/store/playlists.go:58-262 | every run of transactions and cascades is, state by state and answer by answer, a run over duplicate-free lists, and every row keeps linking a playlist and a track of one owner |
| Playlists.FromScratch | server/migrations/008_playlists.sql:8-23 | the same for every run that starts from empty tables |
| Positions.PositionsFit | server/internal/store/playlists.go:169-172 | the largest position plus one never exceeds the number of tracks ever newly added to that playlist |
| Positions.RunStaysBelow | server/internal/store/playlists.go:169-172 | the same from any state: the bound grows by one for each new membership and for nothing else |
| Tenancy.ListingIsOwnOrder | server/internal/store/playlists.go:111-140 | the listing of a playlist is its order row for row, as long as its count says, with tracks of the asking user only, although the query checks the playlist's owner alone |
| Tenancy.OwnTracksDecideListings | server/internal/store/tracks.go:164-222 | the track listing, every search, the album view and every album listing of a user depend on that user's tracks alone |
| Tenancy.StepIsInvisible | server/internal/store/playlists.go:58-262 | a transaction or cascade about one user's rows leaves every listing, search, album view and playlist of another user as it was |
| Tenancy.RunIsInvisible | server/internal/store/playlists.go:58-262 | nor does any run of them |
| PlaylistEditor.PlaylistDetailScreen.Load | app/src/app/(tabs)/playlists/[id].tsx:30-45 | a successful fetch shows the server's order and a failed one changes nothing |
| PlaylistEditor.PlaylistDetailScreen.Move | app/src/app/(tabs)/playlists/[id].tsx:51-62 | the whole outcome of a tap, in tables and on screen, for a request answered, lost, or carried out unheard and a reload that works or not; out of range does nothing; screen and server agree if and only if the reload worked, or the push arrived from a client with the current membership, or a lost push asked for what was there |
| PlaylistEditor.PlaylistDetailScreen.Remove | app/src/app/(tabs)/playlists/[id].tsx:64-73 | the whole outcome of a removal in the same way, with its own exact condition for agreement |
| PlaylistEditor.MoveAgreesExactlyWhen | app/src/app/(tabs)/playlists/[id].tsx:51-62 | that condition for moves, from the tables and the list before the tap |
| PlaylistEditor.MoveDriftsExactlyWhen | app/src/app/(tabs)/playlists/[id].tsx:49-62 | a screen in step drifts if and only if request and reload are both lost and the tap changed something |
| PlaylistEditor.RemovalDriftsExactlyWhen | app/src/app/(tabs)/playlists/[id].tsx:64-73 | and after a removal if and only if both are lost and the track was there |
| PlaylistEditor.ScreenCanDrift | app/src/app/(tabs)/playlists/[id].tsx:49-62 | a playlist of two tracks whose screen ends in the other order |
| PlaylistEditor.PushIsAccepted | server/internal/store/playlists.go:210-262 | the server takes a pushed order if and only if it permutes its own, and then has that order |
| PlaylistEditor.TapsExchangeNeighbours | app/src/app/(tabs)/playlists/[id].tsx:132-133 | ▲ and ▼ exchange a row with the one above or below, and undo each other |
| PlaylistEditor.EveryOrderIsReachable | app/src/components/TrackList.tsx:60-68 | from any order some finite run of enabled arrow taps reaches any permutation of it |
| PlaylistEditor.TapsReachTheServer | app/src/app/(tabs)/playlists/[id].tsx:51-62 | a client in step that pushes each tap leaves the server with the order the taps make |
| PlaylistEditor.EveryOrderCanBeStored | app/src/app/(tabs)/playlists/[id].tsx:51-62 | so the arrows suffice to store any order of a playlist's tracks |
| EditorInFlight.InOrderEndsInStep | app/src/app/(tabs)/playlists/[id].tsx:51-62 | any run of overlapping moves delivered in order ends with screen and server alike once nothing is on its way |
| EditorInFlight.ServerHasLastDelivered | app/src/app/(tabs)/playlists/[id].tsx:51-62 | in any order of delivery every push is accepted and the server ends with the list delivered last |
| EditorInFlight.TwoTapsAgreeExactlyInOrder | app/src/app/(tabs)/playlists/[id].tsx:51-62 | two overlapping taps, both answered with success, end alike if and only if the requests arrive in order |
| Storage.FileStorage.Copy | server/internal/library/library.go:100-103 | a copy that stops early leaves the first chunks in the temporary file and no other change |
| Storage.ContentIsInOrder | server/internal/library/library.go:100 | an object is its chunks one after the other, in the order they were read |
| Storage.FileStorage.Put | server/internal/library/library.go:92-111 | when it returns, wherever it failed, the real key holds its old object or the complete new one, and the temporary file is gone if its removal succeeds |
| PutProtocol.ActPublishes | server/internal/library/library.go:92-111 | of all the steps of a Put readers notice the rename alone, which puts the complete object under the key, whatever was there |
| PutProtocol.OldOrComplete | server/internal/library/library.go:86-111 | over any directory, through every step of any interleaved Puts with errors and crashes at any point, a real key holds its old object or a complete new one and is never lost |
| PutProtocol.UndisturbedPutPublishes | server/internal/library/library.go:92-111 | a Put that nothing goes wrong with adds the complete object under its key and leaves every other name alone |
| Storage.FileStorage.Delete | server/internal/library/library.go:124-131 | removes exactly the named keys up to the first failure; a missing key is no failure |
| Storage.DeleteIsIdempotent | server/internal/library/library.go:124-131 | the names deleted are gone, deleting again after a full or cut-short delete ends in the same directory, and names not asked for are untouched |
| Tracks.ColumnsAreTheFields | server/internal/store/tracks.go:132-155 | every column holds the field of its name, the album artist falls back to the artist, and a missing extension is NULL |
| Tracks.WhatIsStored | server/internal/store/tracks.go:71-162 | a positive track number survives if and only if it fits 31 bits and is otherwise stored as the 32-bit number congruent to it, any other is stored as none, artwork shows exactly when an extension was given, and the album artist is blank only if the artist is |
| Tracks.TrackNumberWraps | server/internal/store/tracks.go:161 | track number 2147483648 is stored as -2147483648 |
| Uuid.NewUUID | server/internal/library/uuid.go:12-20 | masks two of the random bytes in place and prints them, or reports the generator's failure |
| Uuid.TextIsVersion4 | server/internal/library/uuid.go:17-19 | thirty-six characters, dashes in the four fixed places and nowhere else, version 4, variant 10xx, no dot |
| Uuid.TextInjective | server/internal/library/uuid.go:19 | different identifiers have different texts |
| Uuid.EqualTextsEqualBits | server/internal/library/uuid.go:12-19 | two generated texts are equal only if the generator gave the same 122 bits: stamping changes six bits and no other |
| Uuid.HexDigitIsTheValue | server/internal/library/uuid.go:19 | a nibble is printed as the lower-case hexadecimal digit of its value |
| Uuid.KeysNeverCollide | server/internal/library/ingest.go:138 | an audio key is never an artwork key, and keys of different ingests differ with any extensions |
| Ingest.ResolveFields | server/internal/library/ingest.go:84-116 | the overwriting of local variables ends in the row the precedence chain describes |
| Ingest.OverridesWin | server/internal/library/ingest.go:84-116 | field by field: an override that is not blank gives its trimmed text whatever the tag, else the tag, else the fallback; a positive override track number wins; a declared audio type wins over the sniffed one |
| Ingest.TrimSpaceIs | server/internal/library/ingest.go:101-110 | what is trimmed is white space from either end and all of it |
| Ingest.ExtIsTheLastDot | server/internal/library/ingest.go:86 | a name is its stem and its extension, which is the last dot of the last path element and all that follows |
| Ingest.StoreObjects | server/internal/library/ingest.go:118-144 | without the audio nothing becomes visible; a failed artwork costs only the artwork, and the extension says which |
| Ingest.Compensate | server/internal/library/ingest.go:159-168 | a compensating delete that goes through restores the visible objects to what they were before the ingest |
| Ingest.IngestFile | server/internal/library/ingest.go:52-172 | success means one new row, its fields by precedence of override, tag and fallback, and exactly its objects; failure means no row and, if the compensating delete worked, no visible object |
| Ingest.StoredSizeIsRight | server/internal/library/ingest.go:118-158 | the object under the row's key is the content read, its length is the row's size, and the artwork flag says whether the artwork object is stored |
| Ingest.TypeIsUnknownExactlyWhen | server/internal/library/ingest.go:178-207 | the stored type is an audio type if and only if the declared type, the content or the extension says so, and else the unknown type |
| Ingest.ExtensionDecides | server/internal/library/ingest.go:178-206 | without an audio type declared or sniffed the extension decides, in whatever case its letters are |
| Ingest.IngestedRowsHaveAlbumArtists | server/internal/library/ingest.go:88-112 | no ingested row has a blank artist, album or album artist |
| Ingest.TitleIsBlankExactlyWhen | server/internal/library/ingest.go:84-103 | a title is blank if and only if neither override nor tag gives one and the filename is all extension or empty |
| Ingest.TitleCanBeBlank | server/internal/library/ingest.go:84-87 | an untagged upload named ".mp3" has a blank title |
| Ingest.IngestedAlbumsPartition | server/internal/store/albums.go:24-82 | for tracks that came through an ingest the listings of all albums partition the library as a multiset, and every summary counts exactly what its listing shows |
| IngestProtocol.StepKeepsInv | server/internal/library/ingest.go:118-168 | every file or database step, fault or crash of one of many ingests keeps the invariant of all of them |
| IngestProtocol.RunKeepsInv | server/internal/library/ingest.go:118-168 | so does every interleaving |
| IngestProtocol.WhatReadersSee | server/internal/library/library.go:86-111 | readers notice only a rename that publishes a complete object of that ingest, or a compensating removal of one of its keys |
| IngestProtocol.CommittedTracksAreStored | server/internal/library/ingest.go:127-157 | in every interleaving with crashes a committed row has its full audio stored, its full artwork if it names an extension, and no stray artwork if it names none |
| IngestProtocol.ObjectsAreWhole | server/internal/library/library.go:86-111 | at every moment each visible object is an old one or the complete audio or artwork of an ingest |
| IngestProtocol.FailuresLeaveNothing | server/internal/library/ingest.go:159-168 | once all ingests have finished or been compensated, the visible objects are exactly the old ones and those of committed rows |
| IngestProtocol.UndisturbedIngestCommits | server/internal/library/ingest.go:118-171 | an ingest that nothing disturbs ends with its objects stored and a row naming the artwork's extension, or none if there is no artwork |
| IngestProtocol.ArtworkIsOptional | server/internal/library/ingest.go:133-144 | an ingest whose artwork cannot be stored still commits, with a row that names none |
| Migrations.ReadOrderIsIrrelevant | server/internal/store/store.go:74-86 | the file list depends on what the directory holds, not on the order it is read in |
| Migrations.FilesAreTheMigrations | server/internal/store/store.go:79-86 | the files of a run are those of the directory whose names end in ".sql", each once, in lexicographic order |
| Migrations.Database.ApplyMigration | server/internal/store/store.go:114-131 | the SQL and its version row are committed together or not at all, and never for a version already there |
| Migrations.Database.RunMigrations | server/internal/store/store.go:74-112 | a run, complete or cut short at any file, commits exactly the pending files before that point, in order |
| Migrations.CommittedExactlyOnce | server/internal/store/store.go:88-131 | any number of runners, crashing anywhere, with or without the lock: the committed files are those recorded, each committed once |
| Migrations.CommittedInOrder | server/internal/store/store.go:41-112 | for a fixed directory the committed log is always a prefix of the sorted files, and all of them once any run has returned nil |
| Migrations.FurtherRunsChangeNothing | server/internal/store/store.go:41-112 | after a run that returned nil, however many were cut short before it, the log is that of one clean run and later runs leave it alone |
| Migrations.LockPreventsDuplicates | server/internal/store/store.go:42-63 | under the lock one runner works at a time, and none meets a duplicate version or waits for another's insert |
| Migrations.LockIsReleased | server/internal/store/store.go:49-63 | the lock is free if and only if no run is at work: neither an error nor a crash keeps it |
| Migrations.UndisturbedRunCompletes | server/internal/store/store.go:41-131 | step by step, a run left alone commits what was pending, as the call that returns nil does, and gives the lock back |
| Search.EscapeIsLiteral | server/internal/store/tracks.go:186-189 | an escaped query is read back by LIKE as its own characters, whatever follows it in the pattern |
| Search.EscapeIsInjective | server/internal/store/tracks.go:186-189 | different queries have different escapes |
| Search.SearchIsSubstring | server/internal/store/tracks.go:186-204 | for all queries and texts the pattern is well formed and matches exactly the texts that contain the query, case folded |
| Search.EscapingIsNeeded | server/internal/store/tracks.go:186-189 | unescaped, a percent sign would find everything, an underscore every text but the empty one, and a final backslash would make the statement fail |
| Search.SearchTracks | server/internal/store/tracks.go:197-222 | the rows of the query in title order, cut at one hundred |
| Search.SearchFindsMentions | server/internal/store/tracks.go:191-204 | a search gives the user's tracks that mention the query in title, artist or album, each as often as it is there, titles in lexicographic order; only a full page of one hundred leaves any out, and those sort last |
| Albums.ReadAlbums | server/internal/store/albums.go:24-50 | row by row, the summaries of the grouped query |
| Albums.ReadTracksByAlbum | server/internal/store/albums.go:60-82 | row by row, the ordered tracks of one album, a blank artist matching any |
| Albums.ListingIsTheAlbum | server/internal/store/albums.go:52-64 | a listing holds the tracks of the album by that album artist, or by any if none is given, each as often as it is there |
| Albums.ListingsAreSorted | server/internal/store/albums.go:52-64 | tracks with a number come first, by number; ties and tracks without one by title in lexicographic order |
| Albums.AlbumsAreSorted | server/internal/store/albums.go:31-32 | summaries come by title, then artist, in lexicographic order, no two alike |
| Order.StringLeIsLexicographic | server/internal/store/store.go:86 | the comparison of every sorted listing: a proper prefix, or smaller at the first place where two texts differ |
| Albums.PartitionExactlyWhen | server/internal/store/albums.go:24-82 | the listings of all summaries partition the user's tracks if and only if no album mixes blank and other album artists |
| Albums.EveryAlbumIsListed | server/internal/store/albums.go:26-31 | every track belongs to the album and album artist of some summary |
| Albums.SummariesAreRight | server/internal/store/albums.go:24-50 | a summary is flagged exactly when one of its tracks has a non-NULL artwork extension; its representative is then the one of least id among those, else among all |
| Albums.CountIsRightExactlyWhen | server/internal/store/albums.go:24-82 | a summary counts the tracks its listing shows if and only if its artist is not blank or its album has no other artist |
| FilenameParser.PaddingIsIgnored | app/src/utils/parseFilename.ts:20-28 | in any filename, with or without an extension, spaces around a dash and repeated dashes never change the guess |
| FilenameParser.StripsTheExtension | app/src/utils/parseFilename.ts:20-22 | what is removed is the match of the regular expression, and nothing if there is none |
| FilenameParser.NumberedTitleIsTheRegex | app/src/utils/parseFilename.ts:34 | reading a run of digits and a run of spaces finds the regular expression's match, and the greedy one |
| FilenameParser.DecimalRoundTrip | app/src/utils/parseFilename.ts:35 | printing a number in decimal and reading it gives the number |
| FilenameParser.LeadingZero | app/src/utils/parseFilename.ts:35 | zeros in front of a number do not change it |
| FilenameParser.PrintedStemParses | app/src/utils/parseFilename.ts:30-38 | "artist - album - n title.ext" parses to exactly those fields, zero-padded numbers included |
| FilenameParser.UnnumberedStemParses | app/src/utils/parseFilename.ts:32-38 | "artist - album - title.ext" parses to its fields, without a number, when the title has none to offer |
| FilenameParser.DashedFormParses | app/src/utils/parseFilename.ts:40-45 | "album-NN-n-artist-title.ext" parses to exactly those fields |
| FilenameParser.NumbersRoundTrip | app/src/utils/parseFilename.ts:24-45 | both forms give back every number n |
| FilenameParser.ArtistAndTitleParse | app/src/utils/parseFilename.ts:50-57 | "artist - title.ext" with any spaces around the dash parses to artist and title |
| FilenameParser.TwoWordsAmongNumbers | app/src/utils/parseFilename.ts:50-57 | numbers anywhere among two words: the words are artist and title in that order, and the first number is the track's |
| FilenameParser.ThreeWordsAmongNumbers | app/src/utils/parseFilename.ts:50-61 | numbers anywhere among three words: artist, album and title in that order, and the first number is the track's |
| FilenameParser.NoGuessExactlyWhen | app/src/utils/parseFilename.ts:24-64 | there is no guess if and only if the segments have neither special form nor two or three words, and a guess is confident exactly when there is one |
| FilenameParser.FixpointExactlyWhen | app/src/utils/parseFilename.ts:32-45 | printing a guess that has an album and parsing it again gives the same guess if and only if it has no number or its title is one line |
| FilenameParser.FixpointBySegments | app/src/utils/parseFilename.ts:24-64 | the same from the filename alone: if and only if it has exactly three segments or the segment that gives the title is one line |
| FilenameParser.OneLineFixpoint | app/src/utils/parseFilename.ts:24-64 | in particular for every filename without a line break |
| FilenameParser.LineBreakIsLost | app/src/utils/parseFilename.ts:34 | a five-part name whose title has a line break does not survive printing and parsing |

## Left out

- PlaylistStore.Store.AddTrackToPlaylist: each transaction is one atomic step; at the database's default isolation two overlapping adds can read the same maximum and tie, so distinct positions are claimed for transactions that do not overlap.
- PlaylistStore.Store.RenamePlaylist: created, added and updated timestamps are not columns of the model, and database errors other than no rows roll the transaction back and are not states.
- RateLimit.SharedEqualsPrivate: exact arithmetic, so rounding of 64-bit floating point is not modelled; one clock that does not go back serves requests and sweeper.
- Search.SearchIsSubstring: case folding maps characters to characters and keeps the escape character and the wildcards, as the folding of the database does.
- Search.SearchFindsMentions: titles are compared by code point; the database compares by its collation.
- Albums.ListingsAreSorted: likewise for titles and artists, and rows that tie come in table order.
- Tenancy.OwnTracksDecideListings: takes the order in which the table yields two of a user's rows to be fixed, since no statement updates them.
- FilenameParser.NumbersRoundTrip: numbers are unbounded; JavaScript's parseInt rounds beyond 2^53. Strings are sequences of characters, and extensions have no separator in them.
- IngestProtocol.StepKeepsInv: assumes that generated UUIDs are new, that an insert reported as failed left no row, and that CreateTemp never picks a name still held by a Put in progress.
- Ingest.IngestFile: tag extraction and content sniffing are not modelled; tags and the sniffed type are arbitrary inputs, and the staged file does not change while it is read.
- Migrations.LockPreventsDuplicates: assumes that the session holding the lock lives as long as its runner; a lost connection with the runner still alive is not modelled.
- EditorInFlight.InOrderEndsInStep: the requests that overlap are moves that are answered; overlapping removals, failures and reloads overtaken by later ones are modelled one at a time only.
- ListPlaylists, ListTracks and GetTrack: plain filtered reads whose properties would repeat those of the listings above.
- HTTP handlers, sessions, password hashing, invite codes, routing and client address resolution: plumbing or library calls.
- The object-store and managed-database backends: only the contract of the Storage interface matters to the ingest.
- Screens other than the playlist editor, styles, navigation and the player queue.

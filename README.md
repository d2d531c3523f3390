# Kawsay Takiy media-library logic, modelled in Dafny

Kawsay Takiy is an Android music app for Ayacucho folk music (huayno,
carnaval, marinera, folclore, tradicional). Its JUnit suites keep their
own copies of the app's repository and view-model helpers and run them
over in-memory lists. The copies live in five suites: functional, stress,
regression, parametrized and unit. This project models those helpers and
proves what the suites assert about them, and more:

- **Catalog queries** (`Catalog`): songs by category, by id, by search
  term and by a list of ids. These are Kotlin `filter`/`find` over the
  catalog, so results keep catalog order.
- **Favorites** (`Favorites`): keys of the form `userId + "_" + songId`.
  A user's favorites are recovered by `startsWith(userId)` and
  `substringAfter("_")`.
- **Playlists** (`Playlists`): records looked up by id and replaced at
  their index. The functional suite's add/remove check membership and
  stamp `updatedAt`; the stress suite's do neither.
- **Play history** (`History`): an append-only log. The per-user query
  filters, sorts by `playedAt` descending with a stable sort and keeps
  the first `limit` entries. Clearing removes one user's entries.
- **Statistics** (`Stats`, `Stress.StatsOf`): total play time, play count,
  favorite and playlist counts, and the most played category, with
  Kotlin `maxByOrNull`'s first-wins tie rule.
- **Formatting** (`Format`): `formatPlayTime` ("< 1m", "5m", "1h 30m") and
  `formatDuration` ("4:00"). Each is paired with a parser, and round trips
  show exactly what they keep.
- **Validation** (`Parametrized`): songs and user statistics.

Where a suite changes its lists in place, the model does too. This
applies to the functional suite's repository (`Functional.FunctionalTests`),
the stress suite's `StressTestData` and the regression suite's
`SimulatedUserData`. Each is a class with `seq` fields and methods that
reassign them. Every method is specified by the pure function of
`Playlists`, `History`, `Seqs` or `Favorites` that gives the new state, and
the properties are proved about those functions. The suites' tables of
cases and their fixed samples are lemmas about the same functions.

Two behaviours follow the code rather than the app's documented intent:

- Playlist and favorite songs come back in catalog order, not in the order
  the ids were added, because both are `catalog.filter { ids.contains(it.id) }`.
- The favorites query matches by prefix and cuts at the first underscore.
  So "user1" is shown "user12"'s favorites (`Favorites.PrefixCollision`), and
  a user id containing "_" gets mangled song ids back
  (`Favorites.UnderscoreUserMangled`). Exactness holds only under the
  conditions of `Favorites.UserFavoritesExact`.

## Model

| member | source | states |
|---|---|---|
| Catalog.Categories | kawsay_takiy/regresion/RegressionTests.kt:227-229 | `getCategories`: five distinct names, each with a non-whitespace character; it also models the identical list at `kawsay_takiy/parametrized/ParametrizedTests.kt:290` |
| Catalog.IsValidCategory | kawsay_takiy/parametrized/ParametrizedTests.kt:290-293 | exact, case-sensitive membership in the five names: a valid category is never blank and has at least six characters |
| Catalog.SongsByCategory | kawsay_takiy/stress/StressTests.kt:343-345 | exactly the catalog songs of that category, each with its catalog multiplicity, as a subsequence of the catalog; it also models the identical copies at `kawsay_takiy/regresion/RegressionTests.kt:231-233` and at `kawsay_takiy/unit/UnitTests.kt:168-170` |
| Catalog.UnknownCategoryEmpty | kawsay_takiy/regresion/RegressionTests.kt:231-233 | a category no song has yields the empty list |
| Catalog.CategoryPartition | kawsay_takiy/unit/UnitTests.kt:120-124 | filtering by a valid category and by its negation splits the list: the two sizes add up to its size |
| Catalog.SongById | kawsay_takiy/regresion/RegressionTests.kt:235-237 | None exactly when no song has the id; otherwise the first song with that id |
| Catalog.SearchSongs | kawsay_takiy/stress/StressTests.kt:347-354 | exactly the songs whose title, artist, category or description contains the term ignoring case, in catalog order and with catalog multiplicity |
| Catalog.SearchEmptyTermKeepsAll | kawsay_takiy/stress/StressTests.kt:347-354 | the empty term returns the whole catalog |
| Catalog.SearchIgnoresCase | kawsay_takiy/stress/StressTests.kt:347-354 | lower-casing the term does not change the result |
| Catalog.SearchFindsCategory | kawsay_takiy/stress/StressTests.kt:347-354 | every song of a category is found by searching for the category's name |
| Catalog.SongsWithIds | kawsay_takiy/functional/FunctionalTests.kt:258-260 | `getPlaylistSongs`: exactly the catalog songs whose id is listed, each as often as in the catalog, as a subsequence of the catalog; it also models the identical copies at `kawsay_takiy/stress/StressTests.kt:364-366` and at `kawsay_takiy/regresion/RegressionTests.kt:269-271` |
| Catalog.SongsWithIdsIgnoresOrder | kawsay_takiy/functional/FunctionalTests.kt:258-260 | only the set of listed ids matters: their order and repeats do not change the result |
| Catalog.SongsWithIdsNoDuplicates | kawsay_takiy/functional/FunctionalTests.kt:258-260 | a catalog without repeats gives each song at most once |
| Favorites.UserFavorites | kawsay_takiy/functional/FunctionalTests.kt:209-212 | one entry per stored key starting with the user id, in list order, each the text after that key's first underscore; it also models the identical copies at `kawsay_takiy/stress/StressTests.kt:441-444` and at `kawsay_takiy/regresion/RegressionTests.kt:303-306` |
| Favorites.UserFavoritesExact | kawsay_takiy/functional/FunctionalTests.kt:195-212 | for a user id without "_" whose id prefixes no other user's key, the query returns exactly the song ids that user stored, in order |
| Favorites.FavoriteIsListed | kawsay_takiy/functional/FunctionalTests.kt:195-212 | a stored favorite of a user id without "_" is always listed (no false negatives) |
| Favorites.FavoriteStored | kawsay_takiy/functional/FunctionalTests.kt:191-193 | `isFavorite`: true iff the key `userId + "_" + songId` is stored (that such a favorite is listed by the per-user query is `Favorites.FavoriteIsListed`); the classes' `IsFavorite` predicates apply it to their lists, modelling the identical copies at `kawsay_takiy/stress/StressTests.kt:437-439` and at `kawsay_takiy/regresion/RegressionTests.kt:299-301` |
| Favorites.UserFavoritesOfOne | kawsay_takiy/functional/FunctionalTests.kt:209-212 | the query on a single key: its suffix after "_" when the key starts with the user id, nothing otherwise |
| Favorites.PrefixCollision | kawsay_takiy/functional/FunctionalTests.kt:209-212 | user "user1" is shown "song5", stored by user "user12" |
| Favorites.UnderscoreUserMangled | kawsay_takiy/functional/FunctionalTests.kt:50-52 | the suite's user "test_user_123" gets "user_123_song_001" back for song "song_001" |
| Favorites.Keys | kawsay_takiy/functional/FunctionalTests.kt:196 | the stored key of each favorite, `userId + "_" + songId`, position by position |
| Playlists.UserPlaylists | kawsay_takiy/functional/FunctionalTests.kt:228-230 | exactly the playlists owned by the user, each as often as in the store, as a subsequence of the store; it also models the identical copies at `kawsay_takiy/stress/StressTests.kt:360-362` and at `kawsay_takiy/regresion/RegressionTests.kt:308-310` |
| Playlists.IndexOfPlaylist | kawsay_takiy/functional/FunctionalTests.kt:233-240 | the index `find` and `indexOfFirst` agree on: the first playlist with the id, or the store size when there is none |
| Playlists.IndexOfPlaylistUpdate | kawsay_takiy/functional/FunctionalTests.kt:239-240 | replacing the record at that index by one with the same id keeps every lookup |
| Playlists.AddSongChecked | kawsay_takiy/functional/FunctionalTests.kt:232-243 | succeeds iff the playlist exists and lacks the song; then exactly that playlist gets the song appended and `updatedAt` set; otherwise the store is unchanged |
| Playlists.RemoveSongChecked | kawsay_takiy/functional/FunctionalTests.kt:245-256 | succeeds iff the playlist exists and holds the song; then its first copy is dropped and `updatedAt` set; otherwise the store is unchanged |
| Playlists.AddSongCheckedKeepsDistinct | kawsay_takiy/functional/FunctionalTests.kt:232-243 | checked adding keeps every playlist free of repeated songs |
| Playlists.RemoveSongCheckedKeepsDistinct | kawsay_takiy/functional/FunctionalTests.kt:245-256 | checked removing keeps playlists repeat-free and the removed song is then absent |
| Playlists.AddThenRemoveRestores | kawsay_takiy/functional/FunctionalTests.kt:232-256 | a successful add followed by a remove of the same song restores the store apart from `updatedAt` |
| Playlists.AddSongUnchecked | kawsay_takiy/stress/StressTests.kt:368-375 | when a playlist has the id, the first such gets the song appended (no check, no timestamp); otherwise nothing changes |
| Playlists.RemoveSongUnchecked | kawsay_takiy/stress/StressTests.kt:377-384 | when a playlist has the id, the first such loses the first copy of the song; otherwise nothing changes |
| Playlists.UncheckedAddKeepsRepeats | kawsay_takiy/stress/StressTests.kt:368-384 | without the check a song can be added twice, and one remove then leaves a copy |
| Playlists.UncheckedUpdatesCount | kawsay_takiy/stress/StressTests.kt:368-384 | the playlist's song multiset gains exactly one copy on add and loses exactly one on remove |
| Playlists.DeleteById | kawsay_takiy/functional/FunctionalTests.kt:262-264 | `removeIf`: exactly the playlists with another id remain, each as often as before, in order; a store without repeated songs in a playlist keeps that property |
| Playlists.DeleteByIdShrinks | kawsay_takiy/functional/FunctionalTests.kt:262-264 | the store shrinks iff some playlist had the id |
| History.OrderedByDateIffSorted | kawsay_takiy/stress/StressTests.kt:393-397 | the neighbour check `isHistoryOrderedByDate` holds iff any two positions are in non-increasing `playedAt` order |
| History.IsOrderedByDate | kawsay_takiy/stress/StressTests.kt:393-397 | `isHistoryOrderedByDate`: true iff any two positions are in non-increasing `playedAt` order |
| History.SortByDateDesc | kawsay_takiy/functional/FunctionalTests.kt:271-275 | `sortedByDescending`: a permutation of its input, sorted by `playedAt` descending |
| History.SortByDateDescStable | kawsay_takiy/functional/FunctionalTests.kt:271-275 | the sort is stable: entries with equal `playedAt` keep their log order |
| History.InsertByDateSorted | kawsay_takiy/functional/FunctionalTests.kt:271-275 | inserting into a sorted history keeps it sorted |
| History.InsertByDateMultiset | kawsay_takiy/functional/FunctionalTests.kt:271-275 | inserting adds exactly one copy of the entry |
| History.UserHistory | kawsay_takiy/functional/FunctionalTests.kt:271-275 | the first min(`limit`, the user's entry count) of the user's entries sorted most recent first: a prefix of that sorted list, so each entry at most as often as the user played it, all the user's own, ordered by date; it also models the identical copies at `kawsay_takiy/stress/StressTests.kt:386-391` |
| History.UserHistoryComplete | kawsay_takiy/stress/StressTests.kt:386-391 | with a limit at least the user's entry count, the query returns all the user's entries |
| History.OwnLogHistory | kawsay_takiy/functional/FunctionalTests.kt:154-157 | a log of only the user's entries comes back whole under a large enough limit; a single entry comes back as itself |
| History.UserHistoryTiesInLogOrder | kawsay_takiy/functional/FunctionalTests.kt:271-275 | entries of equal `playedAt` come back in log order |
| History.UserHistoryTiesPrefix | kawsay_takiy/functional/FunctionalTests.kt:271-275 | under any limit, the returned entries of one `playedAt` are the first of the user's entries of that time, in log order |
| History.UserHistoryKeepsMostRecent | kawsay_takiy/functional/FunctionalTests.kt:271-275 | every kept entry is at least as recent as any of the user's entries the limit dropped |
| History.RemoveUser | kawsay_takiy/functional/FunctionalTests.kt:277-280 | exactly the entries of other users remain, in order |
| History.RemoveUserClearsUser | kawsay_takiy/functional/FunctionalTests.kt:277-280 | after clearing, the user's history query is empty for every limit |
| History.RemoveUserKeepsOthers | kawsay_takiy/functional/FunctionalTests.kt:277-280 | after clearing, every other user's entries are exactly as before, in order |
| History.AppendEffect | kawsay_takiy/functional/FunctionalTests.kt:266-269 | appending an entry adds it to its user's entries and leaves other users' unchanged |
| Stats.TotalPlayTime | kawsay_takiy/stress/StressTests.kt:404 | `sumOf { it.playDuration }`: non-negative when every duration is, and at least the entry count when every duration is positive |
| Stats.FirstMaxIndex | kawsay_takiy/stress/StressTests.kt:408-410 | `maxByOrNull`: a key of maximal count, with every earlier key strictly less frequent |
| Stats.MostPlayedCategory | kawsay_takiy/stress/StressTests.kt:408-410 | "" for an empty history; otherwise a played category of maximal count, the first in the log among equally frequent ones |
| Stats.MaxKeyIsMax | kawsay_takiy/stress/StressTests.kt:408-410 | the chosen category's count bounds every category's count |
| Stats.MaxKeyIsFirst | kawsay_takiy/stress/StressTests.kt:408-410 | the chosen category appears in the log no later than any equally frequent one |
| Stress.StatsOf | kawsay_takiy/stress/StressTests.kt:399-415 | `calculateUserStats`: the user's id, one app open and `now` as both timestamps; the play count is the number of the user's log entries, the play time is `TotalPlayTime` of them and the most played category is `MostPlayedCategory` of them (maximal count, first in the log among ties); no plays exactly when the log has no entry of the user, and then no play time and category ""; otherwise the category is that of one of the user's plays; play time non-negative when no duration is negative; favorite and playlist counts bounded by the list sizes (`Stress.CalculateUserStats` applies it to the class's lists) |
| Stress.StatsAgreeWithQueries | kawsay_takiy/stress/StressTests.kt:399-415 | the play count equals the length of the full history query, and the favorite and playlist counts equal those queries' lengths |
| Stress.StatsAreValid | kawsay_takiy/stress/StressTests.kt:399-415 | computed statistics pass `validateUserStats` for a non-blank user at a positive time when no duration is negative |
| Stress.ActiveUserStats | kawsay_takiy/stress/StressTests.kt:180-184 | a user with plays of positive duration has a positive total and a most played category taken from those plays |
| Stress.StatsAfterPlay | kawsay_takiy/stress/StressTests.kt:399-415 | recording a play of the user adds one play and its duration; another user's play changes nothing |
| Stress.StressTestData.constructor | kawsay_takiy/stress/StressTests.kt:418-421 | all three lists start empty |
| Stress.StressTestData.AddToFavorites | kawsay_takiy/stress/StressTests.kt:423-430 | true iff the key was absent; the key is appended only then; the favorite is present afterwards; a repeat-free list stays repeat-free |
| Stress.StressTestData.RemoveFromFavorites | kawsay_takiy/stress/StressTests.kt:432-435 | true iff the key was present; its first copy is removed and the multiset loses exactly one copy; in a repeat-free list it is then absent |
| Stress.AddSongToPlaylist | kawsay_takiy/stress/StressTests.kt:368-375 | the in-place update leaves the store equal to `AddSongUnchecked` of the old store |
| Stress.RemoveSongFromPlaylist | kawsay_takiy/stress/StressTests.kt:377-384 | the in-place update leaves the store equal to `RemoveSongUnchecked` of the old store |
| Functional.FunctionalTests.constructor | kawsay_takiy/functional/FunctionalTests.kt:18-63 | the catalog is set, the three lists are empty and the invariant holds |
| Functional.FunctionalTests.AddToFavorites | kawsay_takiy/functional/FunctionalTests.kt:195-202 | true iff the key was absent; appended only then; present afterwards; no key twice is preserved |
| Functional.FunctionalTests.RemoveFromFavorites | kawsay_takiy/functional/FunctionalTests.kt:204-207 | true iff the key was present; its first copy is removed; with no key twice it is then absent |
| Functional.FunctionalTests.CreatePlaylist | kawsay_takiy/functional/FunctionalTests.kt:214-226 | appends an empty playlist with the given name, description and owner, id "playlist_" + the clock reading, and lists it among the user's playlists |
| Functional.FunctionalTests.AddSongToPlaylist | kawsay_takiy/functional/FunctionalTests.kt:232-243 | result and new store are those of `AddSongChecked`; no playlist holds a song twice is preserved |
| Functional.FunctionalTests.RemoveSongFromPlaylist | kawsay_takiy/functional/FunctionalTests.kt:245-256 | result and new store are those of `RemoveSongChecked`; the invariant is preserved |
| Functional.FunctionalTests.DeletePlaylist | kawsay_takiy/functional/FunctionalTests.kt:262-264 | true iff a playlist had the id; afterwards none has it and the rest are kept in order |
| Functional.FunctionalTests.AddToHistory | kawsay_takiy/functional/FunctionalTests.kt:266-269 | always true; the entry is appended to the log |
| Functional.FunctionalTests.ClearUserHistory | kawsay_takiy/functional/FunctionalTests.kt:277-280 | always true; the user's history is empty for every limit and every other user's entries are unchanged |
| Functional.PlaylistWorkflow | kawsay_takiy/functional/FunctionalTests.kt:67-123 | on an empty store: create, add distinct songs, remove the first, delete; every step succeeds, the playlist holds the songs and then all but the first, and the user ends with no playlists |
| Functional.RecordAll | kawsay_takiy/functional/FunctionalTests.kt:165-177 | recording entries one by one appends them to the log in order |
| Functional.HistoryWorkflow | kawsay_takiy/functional/FunctionalTests.kt:127-188 | on an empty log: the first play reads back alone, the full query returns every recorded play, and after clearing the query is empty |
| Regression.SimulatedUserData.constructor | kawsay_takiy/regresion/RegressionTests.kt:286-288 | both lists start empty |
| Regression.SimulatedUserData.AddToFavorites | kawsay_takiy/regresion/RegressionTests.kt:290-297 | true iff the key was absent; appended only then; present afterwards; a repeat-free list stays repeat-free |
| Regression.AddFavoriteTwice | kawsay_takiy/regresion/RegressionTests.kt:290-297 | adding the same favorite twice: the second call reports false and the list is as the first call left it |
| Regression.SampleSongsShape | kawsay_takiy/regresion/RegressionTests.kt:177-225 | `getSampleSongs`: five songs with distinct ids, each between two and five minutes long |
| Regression.SampleSongById | kawsay_takiy/regresion/RegressionTests.kt:39-43 | on the sample catalog "song_001" is found and is the expected huayno |
| Regression.SampleHasHuayno | kawsay_takiy/regresion/RegressionTests.kt:29-32 | on the sample catalog Huayno has songs |
| Regression.SampleHasCarnaval | kawsay_takiy/regresion/RegressionTests.kt:34-37 | on the sample catalog Carnaval has songs |
| Regression.FirstSongFound | kawsay_takiy/regresion/RegressionTests.kt:235-237 | `find` returns the first song when it has the id |
| Regression.SongListed | kawsay_takiy/regresion/RegressionTests.kt:231-233 | a song of the category makes the category's query non-empty |
| Regression.SampleCategoriesListed | kawsay_takiy/regresion/RegressionTests.kt:47-52 | every sample song's category is one of the five categories, and all five are listed |
| Regression.FormatExamples | kawsay_takiy/regresion/RegressionTests.kt:55-57 | the suite's `formatPlayTime` and `formatDuration` examples |
| Regression.TotalDuration | kawsay_takiy/regresion/RegressionTests.kt:60-67 | `sumOf { it.duration }`: at least the song count when every duration is positive |
| Regression.SampleDurationsTypical | kawsay_takiy/regresion/RegressionTests.kt:60-67 | the sample's total duration is positive and its average lies between two and five minutes |
| Regression.CreateTestPlaylist | kawsay_takiy/regresion/RegressionTests.kt:257-267 | `createTestPlaylist`: the user's playlist with both timestamps `now`, whose songs, looked up in the sample catalog, are exactly the first two sample songs |
| Regression.FirstTwoListed | kawsay_takiy/regresion/RegressionTests.kt:269-271 | a catalog whose first two songs are listed and whose others are not yields the first two |
| Regression.FavoriteSongs | kawsay_takiy/regresion/RegressionTests.kt:273-276 | exactly the catalog songs whose ids the favorites query returns, in catalog order and with each one's catalog multiplicity |
| Regression.FavoriteSongsExact | kawsay_takiy/regresion/RegressionTests.kt:273-276 | for a user id without "_" and no prefix collision, exactly the catalog songs the user marked |
| Format.FormatPlayTime | kawsay_takiy/regresion/RegressionTests.kt:239-248 | "< 1m" below a minute; below an hour the whole minutes and "m"; otherwise whole minutes split as hours "h " and minutes below 60 "m"; it also models the identical copies at `kawsay_takiy/parametrized/ParametrizedTests.kt:363-372` and at `kawsay_takiy/unit/UnitTests.kt:157-166` |
| Format.HoursAndMinutes | kawsay_takiy/unit/UnitTests.kt:158-162 | hours and minutes taken from the total agree with whole minutes split at 60 |
| Format.PlayTimeMinutesBelowSixty | kawsay_takiy/unit/UnitTests.kt:157-166 | the minutes of the hour form are below 60 |
| Format.PlayTimeForms | kawsay_takiy/unit/UnitTests.kt:161-165 | the hour form (the only one with 'h') from one hour up, "< 1m" exactly below a minute, and every form ends in 'm' |
| Format.FormatPlayTimeRoundTrip | kawsay_takiy/unit/UnitTests.kt:157-166 | reading the text back gives the whole minutes of the input: only the seconds are lost |
| Format.MinuteFormRoundTrip | kawsay_takiy/unit/UnitTests.kt:163 | below an hour the text reads back as the whole minutes |
| Format.HourFormRoundTrip | kawsay_takiy/unit/UnitTests.kt:162 | from an hour up the text reads back as the whole minutes |
| Format.HourFormOf | kawsay_takiy/unit/UnitTests.kt:162 | the hour form of h hours and m minutes reads back as h × 60 + m |
| Format.ParseMinuteForm | kawsay_takiy/unit/UnitTests.kt:163 | the minute form reads back as its number |
| Format.ParseHourForm | kawsay_takiy/unit/UnitTests.kt:162 | the hour form reads back as hours × 60 + minutes |
| Format.PadTwo | kawsay_takiy/regresion/RegressionTests.kt:250-255 | `%02d` below 100: two digits that read back as the number |
| Format.FormatDuration | kawsay_takiy/regresion/RegressionTests.kt:250-255 | digits, ":", then exactly two digits; the text before the colon is the decimal of the whole minutes with no leading zero (`%d`), and the two digits after it read back as the remaining seconds, below 60 |
| Format.FormatDurationRoundTrip | kawsay_takiy/regresion/RegressionTests.kt:250-255 | reading the text back gives the whole seconds of the input |
| Text.NatToString | kawsay_takiy/unit/UnitTests.kt:161-165 | Kotlin's decimal rendering of a `Long` template: at least one digit, no leading zero except for 0 |
| Text.ParseNatToString | kawsay_takiy/unit/UnitTests.kt:161-165 | the decimal rendering reads back as the number |
| Text.SubstringAfter | kawsay_takiy/functional/FunctionalTests.kt:211 | the input itself without the delimiter; otherwise the text after its first occurrence |
| Text.SubstringAfterSplit | kawsay_takiy/functional/FunctionalTests.kt:211 | when the prefix lacks the delimiter, the text after it is exactly the rest |
| Text.IsBlank | kawsay_takiy/parametrized/ParametrizedTests.kt:354-361 | `isBlank`: true iff every character is whitespace |
| Text.LowerIdempotent | kawsay_takiy/stress/StressTests.kt:347-354 | lower-casing twice is lower-casing once |
| Text.ContainsEmpty | kawsay_takiy/stress/StressTests.kt:347-354 | every text contains the empty term |
| Parametrized.ValidateSong | kawsay_takiy/parametrized/ParametrizedTests.kt:354-361 | `validateSong`: true iff id, title, artist, category and audio file name each show a non-whitespace character and the duration is positive; the description is not checked |
| Parametrized.ValidateUserStats | kawsay_takiy/parametrized/ParametrizedTests.kt:374-384 | `validateUserStats`: true iff the user id has a non-whitespace character, play time, play count, favorite count and playlist count are non-negative, a user who never opened the app has nothing played and no play time, and both timestamps are positive |
| Parametrized.DurationCheckOfValidateSong | kawsay_takiy/parametrized/ParametrizedTests.kt:316 | `isValidDuration` is exactly `validateSong`'s duration condition: every song is valid iff its duration passes it and the song with a positive duration is valid |
| Parametrized.ValidateSongFields | kawsay_takiy/parametrized/ParametrizedTests.kt:354-361 | blanking any checked field or a zero duration invalidates a valid song; the description is not checked |
| Parametrized.SongTable | kawsay_takiy/parametrized/ParametrizedTests.kt:14-143 | the three valid songs pass and each of the six faulty ones fails |
| Parametrized.PlayTimeTable | kawsay_takiy/parametrized/ParametrizedTests.kt:148-179 | every row of the play-time table below an hour |
| Parametrized.PlayTimeHourTable | kawsay_takiy/parametrized/ParametrizedTests.kt:159-164 | every row of the play-time table of an hour or more |
| Parametrized.StatsTable | kawsay_takiy/parametrized/ParametrizedTests.kt:184-270 | every row of the statistics table |
| Parametrized.CategoryTable | kawsay_takiy/parametrized/ParametrizedTests.kt:275-296 | the five names are valid; other names, the empty name and other casings are not |
| Parametrized.DurationTable | kawsay_takiy/parametrized/ParametrizedTests.kt:302-319 | zero and negative durations are invalid; positive ones up to `Long.MAX_VALUE` are valid |
| UnitSuite.FilteringQuery | kawsay_takiy/unit/UnitTests.kt:131-153 | the query's exact result for any category on the suite's four songs |
| UnitSuite.FilteringCounts | kawsay_takiy/unit/UnitTests.kt:141-150 | two huaynos, one carnaval, one marinera, none of "Inexistente" |
| UnitSuite.PartitionCounts | kawsay_takiy/unit/UnitTests.kt:109-125 | three valid songs; the invalid filter is exactly the "InvalidCategory" song |
| UnitSuite.UnitPlayTimeExamples | kawsay_takiy/unit/UnitTests.kt:97-103 | the suite's six `formatPlayTime` examples |
| Seqs.Filter | kawsay_takiy/unit/UnitTests.kt:120-121 | Kotlin `filter`: exactly the elements satisfying the predicate, with their multiplicity, as a subsequence |
| Seqs.FilterPartition | kawsay_takiy/unit/UnitTests.kt:120-124 | a filter and its negation together have every element once |
| Seqs.RemoveFirst | kawsay_takiy/functional/FunctionalTests.kt:206 | `MutableList.remove` and `List - x`: drops the first occurrence, or nothing when absent |
| Seqs.RemoveFirstMultiset | kawsay_takiy/functional/FunctionalTests.kt:206 | exactly one copy leaves the multiset |
| Seqs.RemoveFirstOfAppended | kawsay_takiy/functional/FunctionalTests.kt:249 | removing what was just appended restores the list |
| Seqs.Distinct | kawsay_takiy/stress/StressTests.kt:408-409 | `groupBy` key order: each element once, in order of first appearance |
| Seqs.SumOf | kawsay_takiy/stress/StressTests.kt:404 | Kotlin `sumOf`: non-negative when every term is, and at least the element count when every term is positive |
| Seqs.SumOfAppend | kawsay_takiy/stress/StressTests.kt:404 | the sum grows by exactly the term of an appended element |
| Seqs.SumOfBounds | kawsay_takiy/regresion/RegressionTests.kt:60-67 | when every term lies in [lo, hi], the sum lies between count × lo and count × hi |

## Left out

- Timing, memory and garbage-collection measurements of the stress suite: these are about the JVM, not the logic.
- Randomness (random song ids, durations, percentages): the values become parameters.
- The concurrent-operations simulation of the stress suite: the model is sequential.
- Floating point: `completedPercentage` is a `real` that no operation computes with; the player progress ratio is not modelled.
- The simulated player, authentication and user-creation tests: they only check constructor fields and a player state that no helper maintains.
- The clock: every `System.currentTimeMillis()` read inside one call is the parameter `now`. So `createPlaylist` ids are "playlist_" + `now`, and two creates at the same reading get the same id.
- Kotlin `Long` overflow: times, durations and sums are unbounded integers.
- Format.FormatPlayTime: requires a non-negative input. Kotlin's truncating `/` and `%` give other text for negative times.
- Format.FormatDuration: requires a non-negative input, for the same reason.
- History.UserHistory: requires a non-negative limit. Kotlin's `take` throws on a negative one.
- Text.ContainsIgnoreCase: case folding covers ASCII and Latin-1 letters only, not all of Unicode.
- Functional.FunctionalTests.GetUserFavorites, GetUserPlaylists, GetPlaylistSongs and GetUserHistory, and the matching query functions of the stress and regression classes, carry no contracts of their own. They return the shared functions above over the class's fields.
- UnitSuite.UnitSong: the unit suite's songs use the default description, taken to be "".
- Stress.StatsOf: `appOpenCount` is the constant 1 and both timestamps are `now`.
- JUnit assertions serve only as statements of the properties proved here.

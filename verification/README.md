# Hornet Movies: the movie-list state machine in Dafny

This project models the client-side state of the Hornet Movies Android app. The model covers:

- the `MoviesUiState` record that `MoviesViewModel` rewrites with `copy` on every operation;
- the pure rules in the `MoviesScreen` composable that read that state;
- the select/deselect rule of the `GenreFilter` chip row.

The model covers these operations:

- **Paging.** `loadMovies` fetches a page of top-rated movies and keeps those rated at least 7.0. It appends them. Paging stops after the first page that is empty or holds a movie that fails that filter.
- **Genre histogram.** `updateGenreCounts` computes, in genre-list order, how many entries list each genre. Genres with no entries are left out.
- **Details.** `toggleMovieDetails` expands or collapses an entry, and expanding can start a lazy detail fetch. Success or failure of that fetch is written back by `loadMovieDetails`.
- **Setters.** `selectGenre`, `showPosterModal` and `hidePosterModal`.
- **Screen rules.** The genre-filtered list that is shown, the highlight flag, the near-end trigger that calls `loadMovies`, and the poster lookup.
- **Chip rules.** Which chip shows as selected, and what a click hands to `selectGenre`.

Every operation is a pure function over immutable datatypes. Each asynchronous operation has a *start* function and *complete* functions.

- The start function models the synchronous part: the guard, then the state write before the network call suspends.
- The complete functions (one for success, one for failure) take the fetched data as a parameter.

`viewModelScope` dispatches immediately on the main thread. So the `loadMovies` guard and its `isLoading = true` write happen in one step, and so do the toggle and the detail fetch it starts.

The files:

- `wrappers.dfy`: `Option`, which stands for Kotlin's nullable types.
- `seqs.dfy`: Kotlin's `filter` and `count`, with order, length, concatenation and distinct-key facts.
- `movies_view_model.dfy`: the data classes and every `MoviesUiState` transition.
- `movies_screen.dfy`: the `MoviesScreen` projections.
- `genre_filter.dfy`: the chip row.
- `sessions.dfy`: a whole view-model lifetime. Network results are events that can only arrive for a fetch that is running. The file has two variants:
  - `AsWritten` follows the code.
  - `Corrected` applies the two fixes listed under Findings.

  Invariants are proved over every event sequence.

The model follows the code as written. Four behaviours deserve a note:

- **Detail-loading flag.** `loadMovieDetails` sets `isLoadingDetails` (`ui/MoviesViewModel.kt:132`). The flag is meant to be seen: the guard at line 103 reads it to avoid a second fetch, and `ui/components/MovieListItem.kt:146` shows a progress indicator while it is set. But `toggleMovieDetails` overwrites it at line 112, so the guard never sees it (Findings, row 1).
- **Genre recount.** After a page load, line 83 recomputes the histogram from the genres and the list. `loadGenres` changes the genres at line 54 and does not recompute it (Findings, row 2).
- **Near-end trigger.** The rows on screen are the genre-filtered list (`MainActivity.kt:91-99`). The trigger at line 59 compares the last visible index against the size of the *stored* list. `ShouldLoadMore` follows the code. `NearEndIgnoresFilter` shows a filtered list whose last row is visible but asks for nothing.
- **Clicking a chip twice.** Two clicks on the same chip restore the selection only when "All" or that chip's genre was selected. When another genre was selected, the two clicks end on "All" (`GenreFilter.ClickTwice`).

## Model

| member | source | states |
|---|---|---|
| Seqs.Filter | app/src/main/java/com/hornet/movies/ui/MoviesViewModel.kt:69 | Kotlin `filter`: the result is no longer than the input, and every kept element is from the input and passes the predicate |
| Seqs.FilterKeepsPassing | app/src/main/java/com/hornet/movies/ui/MoviesViewModel.kt:69 | no element that passes the predicate is dropped |
| Seqs.FilterIsSubsequence | app/src/main/java/com/hornet/movies/MainActivity.kt:92-94 | filtering only deletes elements; the kept ones stay in their original relative order |
| Seqs.FilterLength | app/src/main/java/com/hornet/movies/ui/MoviesViewModel.kt:70 | the filtered list is as long as the number of passing elements, which is what `filteredMovies.size` compares against |
| Seqs.FilterAppend | app/src/main/java/com/hornet/movies/MainActivity.kt:91-95 | filtering a concatenation is the concatenation of the filtered parts |
| Seqs.FilterAllPass | app/src/main/java/com/hornet/movies/ui/MoviesViewModel.kt:69-70 | when every element passes, the filter returns its input unchanged |
| Seqs.Count | app/src/main/java/com/hornet/movies/ui/MoviesViewModel.kt:120-122 | Kotlin `count { }`: zero exactly when no element passes, the full length exactly when all pass |
| Seqs.CountAtMostOne | app/src/main/java/com/hornet/movies/ui/MoviesViewModel.kt:100-105 | when no two positions can both satisfy the predicate, at most one element is counted |
| Seqs.FilterKeysDistinct | app/src/main/java/com/hornet/movies/ui/MoviesViewModel.kt:119-124 | filtering a list whose keys are distinct keeps them distinct |
| MoviesViewModel.StartLoadMovies | app/src/main/java/com/hornet/movies/ui/MoviesViewModel.kt:61-67 | with `isLoading` set or `hasMore` cleared the call changes nothing and fetches nothing; otherwise only `isLoading` becomes true and the page fetched is `currentPage` |
| MoviesViewModel.StartLoadMoviesGuard | app/src/main/java/com/hornet/movies/ui/MoviesViewModel.kt:62-65 | a second `loadMovies` right after one that started fetches nothing: at most one page fetch at a time |
| MoviesViewModel.CompleteLoadMovies | app/src/main/java/com/hornet/movies/ui/MoviesViewModel.kt:67-83 | old entries are an unchanged prefix; after them come exactly the fetched movies rated at least 7.0, in fetch order, each collapsed, without details, not loading; `hasMore` holds iff the page was non-empty and every movie passed; `currentPage` goes up by one; `isLoading` is cleared; the histogram is current |
| MoviesViewModel.FailLoadMovies | app/src/main/java/com/hornet/movies/ui/MoviesViewModel.kt:84-85 | a failed page clears `isLoading` only; list, page counter and `hasMore` are unchanged |
| MoviesViewModel.ExhaustedStaysExhausted | app/src/main/java/com/hornet/movies/ui/MoviesViewModel.kt:62-79 | a page that clears `hasMore` was empty or held a movie below 7.0, and the next `loadMovies` fetches nothing |
| MoviesViewModel.GenreCounts | app/src/main/java/com/hornet/movies/ui/MoviesViewModel.kt:115-126 | the genres of the histogram are, in genre-list order, exactly the genres some entry lists; each count is the number of entries whose `genre_ids` contain that genre and is positive |
| MoviesViewModel.GenreCountsComplete | app/src/main/java/com/hornet/movies/ui/MoviesViewModel.kt:119-124 | a listed genre appears in the histogram iff at least one entry has it |
| MoviesViewModel.GenreCountsDistinct | app/src/main/java/com/hornet/movies/ui/MoviesViewModel.kt:119-124 | when genre ids are distinct, no two histogram rows share a genre id |
| MoviesViewModel.UpdateGenreCounts | app/src/main/java/com/hornet/movies/ui/MoviesViewModel.kt:115-127 | afterwards the histogram agrees with the genres and entries; no other field changes |
| MoviesViewModel.CountWithGenreIgnoresEntryState | app/src/main/java/com/hornet/movies/ui/MoviesViewModel.kt:120-122 | a genre's count depends only on the movies, not on the expand or detail state of entries |
| MoviesViewModel.GenreCountsIgnoreEntryState | app/src/main/java/com/hornet/movies/ui/MoviesViewModel.kt:119-124 | the whole histogram depends only on the movies, so toggles and detail results keep it current |
| MoviesViewModel.CompleteLoadGenres | app/src/main/java/com/hornet/movies/ui/MoviesViewModel.kt:50-58 | a genre response replaces the genre list and leaves the histogram as it was; nothing else changes |
| MoviesViewModel.CompleteLoadGenresRecounted | app/src/main/java/com/hornet/movies/ui/MoviesViewModel.kt:54 | corrected genre response: replaces the genre list and leaves the histogram current |
| MoviesViewModel.ToggleMovieDetails | app/src/main/java/com/hornet/movies/ui/MoviesViewModel.kt:99-113 | entries with the id flip `isExpanded`; length, order, movies and all other entries are unchanged; `isLoadingDetails` of every entry is unchanged (the flag set at line 132 is overwritten at line 112); one fetch starts per matching entry that was collapsed, had no details and was not loading |
| MoviesViewModel.ToggleMovieDetailsGuarded | app/src/main/java/com/hornet/movies/ui/MoviesViewModel.kt:130-137 | corrected toggle: like the one above, except that an entry whose fetch starts keeps `isLoadingDetails` true |
| MoviesViewModel.CompleteMovieDetails | app/src/main/java/com/hornet/movies/ui/MoviesViewModel.kt:143-154 | entries with the id get the details and stop loading, keeping their expand state; every other entry and field is unchanged |
| MoviesViewModel.FailMovieDetails | app/src/main/java/com/hornet/movies/ui/MoviesViewModel.kt:157-165 | entries with the id stop loading and keep the details they had; every other entry and field is unchanged |
| MoviesViewModel.ToggleTwiceRestores | app/src/main/java/com/hornet/movies/ui/MoviesViewModel.kt:99-113 | expanding and then collapsing leaves the state exactly as before, so no trace of a started fetch remains |
| MoviesViewModel.ToggleKeepsSettled | app/src/main/java/com/hornet/movies/ui/MoviesViewModel.kt:103 | when every entry with the id has details or is loading, a toggle starts no fetch and keeps that so |
| MoviesViewModel.SettledNeverRefetches | app/src/main/java/com/hornet/movies/ui/MoviesViewModel.kt:103-105 | from such a state, no number of toggles starts a fetch |
| MoviesViewModel.DetailsLoadedNeverRefetch | app/src/main/java/com/hornet/movies/ui/MoviesViewModel.kt:143-154 | once details arrived for an id, toggling it any number of times fetches nothing |
| MoviesViewModel.GuardedToggleBlocksRefetch | app/src/main/java/com/hornet/movies/ui/MoviesViewModel.kt:132 | with the corrected toggle and unique ids, once a toggle starts a fetch, further toggles start none |
| MoviesViewModel.FailureAllowsRetry | app/src/main/java/com/hornet/movies/ui/MoviesViewModel.kt:157-165 | after a failed fetch for an expanded entry, collapsing and expanding it again starts a new fetch |
| MoviesViewModel.SelectGenre | app/src/main/java/com/hornet/movies/ui/MoviesViewModel.kt:170-172 | only `selectedGenreId` changes; entries, genres, histogram and paging are untouched |
| MoviesViewModel.ShowPosterModal | app/src/main/java/com/hornet/movies/ui/MoviesViewModel.kt:91-93 | only `selectedPosterId` changes, to the clicked id |
| MoviesViewModel.HidePosterModal | app/src/main/java/com/hornet/movies/ui/MoviesViewModel.kt:95-97 | only `selectedPosterId` changes, to null |
| MoviesScreen.DisplayedMovies | app/src/main/java/com/hornet/movies/MainActivity.kt:91-97 | with no genre selected the shown list is the stored one; with genre g it holds exactly the stored entries listing g, in stored order, as many as the count of g; never longer than the stored list |
| MoviesScreen.HighlightMatchesFilter | app/src/main/java/com/hornet/movies/MainActivity.kt:100-101 | with a filter active every shown entry is highlighted; with none, no entry is |
| MoviesScreen.FilterIsNonDestructive | app/src/main/java/com/hornet/movies/MainActivity.kt:91-97 | selecting a genre leaves the stored list as it was, and clearing the filter shows all of it again |
| MoviesScreen.ChipCountIsDisplayedLength | app/src/main/java/com/hornet/movies/MainActivity.kt:91-95 | when the histogram is current, a chip's count equals the length of the list shown while it is selected |
| MoviesScreen.PageLoadExtendsDisplay | app/src/main/java/com/hornet/movies/MainActivity.kt:91-99 | after a page load the shown list is the previous shown list followed by the new entries that match the filter |
| MoviesScreen.ShouldLoadMore | app/src/main/java/com/hornet/movies/MainActivity.kt:59-60 | `loadMovies` is triggered iff a last visible index exists and is at least the STORED list size minus 3 |
| MoviesScreen.NearEndIgnoresFilter | app/src/main/java/com/hornet/movies/MainActivity.kt:59 | the trigger does not depend on the selected genre; a filtered list of one shown entry out of five stored does not trigger at its last row |
| MoviesScreen.FirstIndexOf | app/src/main/java/com/hornet/movies/MainActivity.kt:131 | Kotlin `find` by id: the result is the least index with that id, or none when no entry has it |
| MoviesScreen.PosterMovie | app/src/main/java/com/hornet/movies/MainActivity.kt:130-133 | the dialog shows an entry iff a poster id is selected and some entry has that id, and then it shows the first such entry |
| MoviesScreen.PosterModalRoundTrip | app/src/main/java/com/hornet/movies/MainActivity.kt:105-106 | with unique ids, clicking a listed poster shows that entry, and dismissing shows nothing |
| GenreFilter.Chips | app/src/main/java/com/hornet/movies/ui/components/GenreFilter.kt:52-73 | "All" comes first, then one chip per genre count, in list order |
| GenreFilter.ChipClick | app/src/main/java/com/hornet/movies/ui/components/GenreFilter.kt:53-65 | "All" always hands over null; a genre chip hands over null iff its genre is the selected one, otherwise its genre id |
| GenreFilter.ClickFlipsChip | app/src/main/java/com/hornet/movies/ui/components/GenreFilter.kt:61-70 | clicking a genre chip flips whether it is selected; clicking "All" selects "All"; the list and histogram are untouched |
| GenreFilter.ClickTwice | app/src/main/java/com/hornet/movies/ui/components/GenreFilter.kt:61-65 | two clicks on one chip restore the selection when it was "All" or that chip's genre, and end on "All" otherwise; nothing else changes |
| GenreFilter.ReselectDeselects | app/src/main/java/com/hornet/movies/ui/components/GenreFilter.kt:62-65 | with genre 28 selected, clicking its chip again clears the filter |
| GenreFilter.AtMostOneChipSelected | app/src/main/java/com/hornet/movies/ui/components/GenreFilter.kt:55-70 | with distinct genre ids at most one chip is selected, and "All" is selected iff no genre is |
| GenreFilter.ChipRowSelection | app/src/main/java/com/hornet/movies/ui/components/GenreFilter.kt:59-70 | with distinct genre ids and a current histogram the row never shows two selected chips |
| Sessions.Launch | app/src/main/java/com/hornet/movies/ui/MoviesViewModel.kt:45-48 | the view model starts with the genre fetch running and page 1 requested, loading, with an empty list |
| Sessions.PageInvStep | app/src/main/java/com/hornet/movies/ui/MoviesViewModel.kt:61-86 | every event keeps the page invariant: `isLoading` holds exactly while a page fetch runs, that fetch is for `currentPage`, and loading implies `hasMore` |
| Sessions.PageInvRun | app/src/main/java/com/hornet/movies/ui/MoviesViewModel.kt:61-86 | the page invariant survives any sequence of events |
| Sessions.PaginationGuard | app/src/main/java/com/hornet/movies/ui/MoviesViewModel.kt:62 | in every reachable session, `loadMovies` while a page is in flight changes nothing |
| Sessions.ExhaustionIsFinal | app/src/main/java/com/hornet/movies/ui/MoviesViewModel.kt:62 | once `hasMore` is false, no event sequence requests a page, grows the list, moves `currentPage` or sets `hasMore` again |
| Sessions.PageFailureRetriesSamePage | app/src/main/java/com/hornet/movies/ui/MoviesViewModel.kt:84-85 | after a failed page the next `loadMovies` requests the same page number again |
| Sessions.InvStep | app/src/main/java/com/hornet/movies/ui/MoviesViewModel.kt:99-165 | in the corrected variant, every event keeps ids unique, keeps at most one detail fetch per id with `isLoadingDetails` set exactly while it runs, and keeps the histogram current |
| Sessions.CorrectedSessionSound | app/src/main/java/com/hornet/movies/ui/MoviesViewModel.kt:99-137 | in the corrected variant, after any events no movie has two detail fetches running and the histogram is current |
| Sessions.AsWrittenDuplicateDetailFetch | app/src/main/java/com/hornet/movies/ui/MoviesViewModel.kt:99-113 | as written: expand, collapse, expand an entry whose first fetch is still running, and two fetches for it are running |
| Sessions.AsWrittenDuplicateFromLaunch | app/src/main/java/com/hornet/movies/ui/MoviesViewModel.kt:99-137 | as written, from launch: page 1 brings movie 5, three taps on it before its details return leave two detail fetches for movie 5 running |
| Sessions.AsWrittenNeverShowsLoading | app/src/main/java/com/hornet/movies/ui/MoviesViewModel.kt:99-137 | as written, after any events from launch no entry has `isLoadingDetails` set, so the progress indicator of an expanded entry never shows |
| Sessions.CorrectedSingleDetailFetch | app/src/main/java/com/hornet/movies/ui/MoviesViewModel.kt:130-137 | corrected: the same three toggles start one fetch, and the entry shows it is loading |
| Sessions.AsWrittenStaleGenreCounts | app/src/main/java/com/hornet/movies/ui/MoviesViewModel.kt:50-58 | as written: when page 1 arrives before the genres, the histogram stays empty after the genres arrive although a listed movie has a listed genre |

## Left out

- The network calls `getGenres`, `getTopMovies` and `getMovieDetails` are not modelled. The service is not part of this model, so their results are parameters or session events.
- Coroutine scheduling is not modelled: `viewModelScope.launch`, `StateFlow` emission and conflation, `snapshotFlow`, `LaunchedEffect`. Each write to `_uiState` is one step. A write that is immediately overwritten inside one call, such as the one at `MoviesViewModel.kt:137`, is not observable in the model.
- The snapshot flow emits only when the last visible index changes, not when the list grows. The model treats every evaluation of the trigger as one possible call.
- The page write and the `updateGenreCounts` write that follows it run with no suspension between them, so `CompleteLoadMovies` is one step.
- `vote_average` is a `Double` and is modelled as a `real`. NaN is left out (in Kotlin, NaN >= 7.0 is false). The `%.1f` rating label is left out.
- Kotlin `Int` is 32 bits. The model uses unbounded integers for `currentPage + 1`, ids and counts. Overflow would need two billion pages or entries.
- The Kotlin declarations of `Movie`, `MovieDetails` and `Genre` are not among the files modelled. Their fields follow how the modelled code and `ui/components/MovieListItem.kt` use them: id, title, overview, poster, backdrop, rating and genre ids for a movie. The nested detail objects are flattened to their names: `production_company.name` and `director.name` become optional strings, and `actors[].name` becomes a list of strings (`MovieListItem.kt:155-173`).
- Layout is left out: `MovieListItem.kt`, `PosterModal.kt` (including its text-recognition call), theming, `MainActivity.onCreate`, the progress row, chip label text and styling, and `Log.e`.
- Sessions.Step: an event that cannot happen in a state leaves the state unchanged. A page result must be fresh: distinct ids, none already listed. The app relies on the movie service never repeating an id and does not check it. Lists with repeated ids are therefore outside the session invariants.
- Sessions.InvStep: proved only for the corrected variant. The as-written variant breaks it, as the two finding lemmas show.

## Findings

| source | as written | input that shows it | evidently intended | confidence | as-written member | corrected member |
|---|---|---|---|---|---|---|
| app/src/main/java/com/hornet/movies/ui/MoviesViewModel.kt:99-113 | `toggleMovieDetails` maps over the entries read before the call. The `isLoadingDetails = true` that `loadMovieDetails` writes (line 132) is overwritten by line 112, so the duplicate-fetch guard at line 103 never sees it | launch; page 1 returns one movie, id 5; tap it three times (expand, collapse, expand) before the first detail fetch returns: two fetches for movie 5 run, and no entry is ever marked as loading | an entry whose fetch has started stays marked as loading, as the guard at line 103 and the progress indicator at `ui/components/MovieListItem.kt:146` expect, so no second fetch starts until the first returns | high, not executed | Sessions.AsWrittenDuplicateFromLaunch | Sessions.CorrectedSingleDetailFetch |
| app/src/main/java/com/hornet/movies/ui/MoviesViewModel.kt:50-58 | `loadGenres` stores the genres without calling `updateGenreCounts`; counts are recomputed only after a page load (line 83) | page 1 (one movie of genre 28) arrives before the genre list `[28 Action]`: the chip row stays empty until another page loads | the histogram is recomputed whenever the genre list changes | medium, not executed | Sessions.AsWrittenStaleGenreCounts | Sessions.CorrectedSessionSound |

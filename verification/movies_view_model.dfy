/**
 The data classes of `MoviesViewModel.kt` and every transition of `MoviesUiState`.

 Each public operation of the view model writes a `copy` of the one state record,
 so each becomes a pure function from the old state to the new one. An
 asynchronous operation is split in two: a "start" function for the synchronous
 part that runs before the network call suspends, and a "complete" function
 (success or failure) that receives the fetched data as a parameter.
 */
module MoviesViewModel {
  import opened Wrappers
  import opened Seqs

  // ---------------------------------------------------------------- data model

  datatype Genre = Genre(id: int, name: string)

  /** A catalog movie. `voteAverage` is a Kotlin `Double`; every finite double is a real. */
  datatype Movie = Movie(
    id: int,
    title: string,
    overview: string,
    poster: string,
    backdrop: string,
    voteAverage: real,
    genreIds: seq<int>)

  datatype MovieDetails = MovieDetails(
    productionCompany: Option<string>,
    director: Option<string>,
    actors: seq<string>)

  datatype GenreCount = GenreCount(genre: Genre, count: int)

  /** One list entry: a movie plus its expand / enrichment state. */
  datatype MovieWithDetails = MovieWithDetails(
    movie: Movie,
    isExpanded: bool,
    details: Option<MovieDetails>,
    isLoadingDetails: bool)

  datatype MoviesUiState = MoviesUiState(
    movies: seq<MovieWithDetails>,
    genres: seq<Genre>,
    genreCounts: seq<GenreCount>,
    selectedGenreId: Option<int>,
    isLoading: bool,
    hasMore: bool,
    selectedPosterId: Option<int>,
    currentPage: int)

  /** The default-constructed `MoviesUiState()`. */
  function InitialState(): MoviesUiState {
    MoviesUiState([], [], [], None, false, true, None, 1)
  }

  /** `MovieWithDetails(movie = m)`: collapsed, no details, not loading. */
  function Wrap(m: Movie): MovieWithDetails {
    MovieWithDetails(m, false, None, false)
  }

  /**
   Collapsed, no details, not loading: the state `MovieWithDetails(movie = m)` starts
   in, and exactly the state in which expanding the entry starts a detail fetch.
   */
  predicate IsFresh(e: MovieWithDetails) {
    !e.isExpanded && e.details.None? && !e.isLoadingDetails
  }

  function WrapAll(ms: seq<Movie>): seq<MovieWithDetails> {
    seq(|ms|, i requires 0 <= i < |ms| => Wrap(ms[i]))
  }

  /** The movies underneath a list of entries, in list order. */
  function MoviesOf(entries: seq<MovieWithDetails>): seq<Movie> {
    seq(|entries|, i requires 0 <= i < |entries| => entries[i].movie)
  }

  function MovieIds(entries: seq<MovieWithDetails>): seq<int> {
    seq(|entries|, i requires 0 <= i < |entries| => entries[i].movie.id)
  }

  /** No two entries share a movie id. */
  ghost predicate UniqueIds(entries: seq<MovieWithDetails>) {
    forall i, j :: 0 <= i < |entries| && 0 <= j < |entries| && entries[i].movie.id == entries[j].movie.id ==> i == j
  }

  // ---------------------------------------------------------------- loadMovies

  /** The rating a fetched movie needs to be kept (`vote_average >= 7.0`). */
  const MinVoteAverage: real := 7.0

  predicate Passes(m: Movie) {
    m.voteAverage >= MinVoteAverage
  }

  /** What the synchronous part of `loadMovies` leaves behind: the new state and the page it fetches, if any. */
  datatype LoadStart = LoadStart(state: MoviesUiState, request: Option<int>)

  /** The guard of `loadMovies`, then the write of `isLoading` before the page fetch suspends. */
  function StartLoadMovies(s: MoviesUiState): (r: LoadStart)
    ensures s.isLoading || !s.hasMore ==> r == LoadStart(s, None)
    ensures !s.isLoading && s.hasMore ==>
              r.request == Some(s.currentPage) && r.state.isLoading && r.state.(isLoading := false) == s
  {
    if s.isLoading || !s.hasMore then LoadStart(s, None)
    else LoadStart(s.(isLoading := true), Some(s.currentPage))
  }

  /** A second trigger while a page is in flight asks for nothing: at most one page fetch at a time. */
  lemma StartLoadMoviesGuard(s: MoviesUiState)
    ensures var first := StartLoadMovies(s);
            StartLoadMovies(first.state) == LoadStart(first.state, None)
  {
  }

  /** The page fetch succeeded with `fetched`: keep the movies that pass, append them, advance the page, recount. */
  function CompleteLoadMovies(s: MoviesUiState, fetched: seq<Movie>): (r: MoviesUiState)
    ensures |r.movies| == |s.movies| + Count(fetched, Passes)
    ensures r.movies[..|s.movies|] == s.movies
    ensures MoviesOf(r.movies) == MoviesOf(s.movies) + Filter(fetched, Passes)
    ensures forall k :: |s.movies| <= k < |r.movies| ==> IsFresh(r.movies[k])
    ensures r.hasMore <==> |fetched| > 0 && forall i :: 0 <= i < |fetched| ==> Passes(fetched[i])
    ensures !r.isLoading && r.currentPage == s.currentPage + 1
    ensures r.genres == s.genres && r.selectedGenreId == s.selectedGenreId && r.selectedPosterId == s.selectedPosterId
    ensures CountsFresh(r)
  {
    var passing := Filter(fetched, Passes);
    FilterLength(fetched, Passes);
    var more := |fetched| > 0 && |passing| == |fetched|;
    var appended := s.movies + WrapAll(passing);
    assert MoviesOf(appended) == MoviesOf(s.movies) + passing;
    UpdateGenreCounts(s.(movies := appended, isLoading := false, hasMore := more, currentPage := s.currentPage + 1))
  }

  /** The page fetch threw: only the loading flag is cleared, so the same page is asked for next time. */
  function FailLoadMovies(s: MoviesUiState): (r: MoviesUiState)
    ensures !r.isLoading
    ensures r.movies == s.movies && r.currentPage == s.currentPage && r.hasMore == s.hasMore
    ensures r.(isLoading := s.isLoading) == s
  {
    s.(isLoading := false)
  }

  /** Once `hasMore` is false, `loadMovies` never again changes the state or asks for a page. */
  lemma {:induction false} ExhaustedStaysExhausted(s: MoviesUiState, fetched: seq<Movie>)
    requires CompleteLoadMovies(s, fetched).hasMore == false
    ensures StartLoadMovies(CompleteLoadMovies(s, fetched)).request == None
    ensures |fetched| == 0 || exists i :: 0 <= i < |fetched| && !Passes(fetched[i])
  {
  }

  // ---------------------------------------------------------------- genre counts

  /** Kotlin's `genre_ids.contains(g)` on an entry's movie, as a predicate value. */
  function WithGenre(g: int): MovieWithDetails -> bool {
    (e: MovieWithDetails) => g in e.movie.genreIds
  }

  /** How many entries list genre `g`. */
  function CountWithGenre(movies: seq<MovieWithDetails>, g: int): nat {
    Count(movies, WithGenre(g))
  }

  /** A genre that at least one entry lists. */
  function IsPresent(movies: seq<MovieWithDetails>): Genre -> bool {
    (g: Genre) => CountWithGenre(movies, g.id) > 0
  }

  function GenresOf(counts: seq<GenreCount>): seq<Genre> {
    seq(|counts|, i requires 0 <= i < |counts| => counts[i].genre)
  }

  /**
   `updateGenreCounts`: in genre-list order, one count per genre that some entry
   lists; genres nobody lists are left out.
   */
  function GenreCounts(genres: seq<Genre>, movies: seq<MovieWithDetails>): (r: seq<GenreCount>)
    ensures GenresOf(r) == Filter(genres, IsPresent(movies))
    ensures forall i :: 0 <= i < |r| ==> r[i].count == CountWithGenre(movies, r[i].genre.id) && r[i].count > 0
    decreases |genres|
  {
    if |genres| == 0 then []
    else
      var n := CountWithGenre(movies, genres[0].id);
      var rest := GenreCounts(genres[1..], movies);
      var r := if n > 0 then [GenreCount(genres[0], n)] + rest else rest;
      GenreCountsCons(genres, movies, rest, r);
      r
  }

  /** One step of `GenreCounts`: consing the head genre's count (when positive) onto the tail's histogram. */
  lemma GenreCountsCons(genres: seq<Genre>, movies: seq<MovieWithDetails>, rest: seq<GenreCount>, r: seq<GenreCount>)
    requires |genres| > 0
    requires GenresOf(rest) == Filter(genres[1..], IsPresent(movies))
    requires var n := CountWithGenre(movies, genres[0].id);
             r == if n > 0 then [GenreCount(genres[0], n)] + rest else rest
    ensures GenresOf(r) == Filter(genres, IsPresent(movies))
  {
    var p := IsPresent(movies);
    var n := CountWithGenre(movies, genres[0].id);
    FilterCons(genres, p);
    if n > 0 {
      assert p(genres[0]);
      GenresOfCons(GenreCount(genres[0], n), rest);
    } else {
      assert !p(genres[0]);
    }
  }

  lemma GenresOfCons(c: GenreCount, rest: seq<GenreCount>)
    ensures GenresOf([c] + rest) == [c.genre] + GenresOf(rest)
  {
    var r := [c] + rest;
    forall i | 0 <= i < |r|
      ensures GenresOf(r)[i] == ([c.genre] + GenresOf(rest))[i]
    {
      if i > 0 {
        assert r[i] == rest[i - 1];
      }
    }
  }

  /** The cached histogram agrees with the genres and movies it is computed from. */
  ghost predicate CountsFresh(s: MoviesUiState) {
    s.genreCounts == GenreCounts(s.genres, s.movies)
  }

  /** `updateGenreCounts`: recompute the histogram; nothing else changes. */
  function UpdateGenreCounts(s: MoviesUiState): (r: MoviesUiState)
    ensures CountsFresh(r)
    ensures r.(genreCounts := s.genreCounts) == s
  {
    s.(genreCounts := GenreCounts(s.genres, s.movies))
  }

  /** Every genre that some entry lists appears in the histogram with its count, and only those. */
  lemma GenreCountsComplete(genres: seq<Genre>, movies: seq<MovieWithDetails>, g: Genre)
    requires g in genres
    ensures CountWithGenre(movies, g.id) > 0 <==> g in GenresOf(GenreCounts(genres, movies))
  {
    var present := Filter(genres, IsPresent(movies));
    FilterKeepsPassing(genres, IsPresent(movies));
    if g in present {
      var i :| 0 <= i < |present| && present[i] == g;
      assert IsPresent(movies)(present[i]);
    } else {
      var k :| 0 <= k < |genres| && genres[k] == g;
      assert !IsPresent(movies)(genres[k]);
    }
  }

  /** When genre ids are distinct, so are the genre ids of the histogram (one chip per genre). */
  lemma GenreCountsDistinct(genres: seq<Genre>, movies: seq<MovieWithDetails>)
    requires KeysDistinct(genres, (g: Genre) => g.id)
    ensures KeysDistinct(GenreCounts(genres, movies), (gc: GenreCount) => gc.genre.id)
  {
    var r := GenreCounts(genres, movies);
    FilterKeysDistinct(genres, IsPresent(movies), (g: Genre) => g.id);
    forall i, j | 0 <= i < |r| && 0 <= j < |r| && r[i].genre.id == r[j].genre.id
      ensures i == j
    {
      assert GenresOf(r)[i] == r[i].genre && GenresOf(r)[j] == r[j].genre;
    }
  }

  /** The histogram only looks at the movies, never at the expand or enrichment state of entries. */
  lemma {:induction false} CountWithGenreIgnoresEntryState(a: seq<MovieWithDetails>, b: seq<MovieWithDetails>, g: int)
    requires MoviesOf(a) == MoviesOf(b)
    ensures CountWithGenre(a, g) == CountWithGenre(b, g)
    decreases |a|
  {
    assert |a| == |MoviesOf(a)| == |MoviesOf(b)| == |b|;
    if |a| > 0 {
      assert a[0].movie == MoviesOf(a)[0] == MoviesOf(b)[0] == b[0].movie;
      assert MoviesOf(a[1..]) == MoviesOf(a)[1..];
      assert MoviesOf(b[1..]) == MoviesOf(b)[1..];
      CountWithGenreIgnoresEntryState(a[1..], b[1..], g);
    }
  }

  lemma {:induction false} GenreCountsIgnoreEntryState(genres: seq<Genre>, a: seq<MovieWithDetails>, b: seq<MovieWithDetails>)
    requires MoviesOf(a) == MoviesOf(b)
    ensures GenreCounts(genres, a) == GenreCounts(genres, b)
    decreases |genres|
  {
    if |genres| > 0 {
      CountWithGenreIgnoresEntryState(a, b, genres[0].id);
      GenreCountsIgnoreEntryState(genres[1..], a, b);
    }
  }

  // ---------------------------------------------------------------- loadGenres

  /** `loadGenres` succeeded: the genre list is replaced and the histogram is NOT recomputed. */
  function CompleteLoadGenres(s: MoviesUiState, genres: seq<Genre>): (r: MoviesUiState)
    ensures r.genres == genres && r.genreCounts == s.genreCounts
    ensures r.(genres := s.genres) == s
  {
    s.(genres := genres)
  }

  /** The evident intent of `loadGenres`: replace the genre list and recount, as a page load does. */
  function CompleteLoadGenresRecounted(s: MoviesUiState, genres: seq<Genre>): (r: MoviesUiState)
    ensures r.genres == genres && CountsFresh(r)
    ensures r.(genres := s.genres, genreCounts := s.genreCounts) == s
  {
    UpdateGenreCounts(s.(genres := genres))
  }

  // ---------------------------------------------------------------- toggleMovieDetails / loadMovieDetails

  /** A toggle of `id` starts a detail fetch for this entry. */
  function NeedsFetch(id: int): MovieWithDetails -> bool {
    (e: MovieWithDetails) => e.movie.id == id && IsFresh(e)
  }

  /** The state a toggle leaves behind and how many `loadMovieDetails` calls (detail fetches) it made. */
  datatype Toggled = Toggled(state: MoviesUiState, fetches: nat)

  function FlipExpanded(e: MovieWithDetails, id: int): MovieWithDetails {
    if e.movie.id == id then e.(isExpanded := !e.isExpanded) else e
  }

  /**
   `toggleMovieDetails` as written. The `map` is computed from the entries as they
   were before the call; each `loadMovieDetails` it makes writes
   `isLoadingDetails = true` into the state and starts a fetch, but the final write
   replaces the list with the mapped one, so that flag never survives.
   */
  function ToggleMovieDetails(s: MoviesUiState, id: int): (r: Toggled)
    ensures |r.state.movies| == |s.movies| && MoviesOf(r.state.movies) == MoviesOf(s.movies)
    ensures forall i :: 0 <= i < |s.movies| ==>
              var e, e' := s.movies[i], r.state.movies[i];
              && e'.isExpanded == (if e.movie.id == id then !e.isExpanded else e.isExpanded)
              && e'.details == e.details
              && e'.isLoadingDetails == e.isLoadingDetails
    ensures r.state.(movies := s.movies) == s
    ensures r.fetches == Count(s.movies, NeedsFetch(id))
  {
    var updated := seq(|s.movies|, i requires 0 <= i < |s.movies| => FlipExpanded(s.movies[i], id));
    assert MoviesOf(updated) == MoviesOf(s.movies);
    Toggled(s.(movies := updated), Count(s.movies, NeedsFetch(id)))
  }

  function FlipExpandedGuarded(e: MovieWithDetails, id: int): MovieWithDetails {
    if e.movie.id == id then e.(isExpanded := !e.isExpanded, isLoadingDetails := e.isLoadingDetails || IsFresh(e))
    else e
  }

  /** The evident intent of `toggleMovieDetails`: the loading flag set for a started fetch is kept. */
  function ToggleMovieDetailsGuarded(s: MoviesUiState, id: int): (r: Toggled)
    ensures |r.state.movies| == |s.movies| && MoviesOf(r.state.movies) == MoviesOf(s.movies)
    ensures forall i :: 0 <= i < |s.movies| ==>
              var e, e' := s.movies[i], r.state.movies[i];
              && e'.isExpanded == (if e.movie.id == id then !e.isExpanded else e.isExpanded)
              && e'.details == e.details
              && e'.isLoadingDetails == (e.isLoadingDetails || NeedsFetch(id)(e))
    ensures r.state.(movies := s.movies) == s
    ensures r.fetches == Count(s.movies, NeedsFetch(id))
  {
    var updated := seq(|s.movies|, i requires 0 <= i < |s.movies| => FlipExpandedGuarded(s.movies[i], id));
    assert MoviesOf(updated) == MoviesOf(s.movies);
    Toggled(s.(movies := updated), Count(s.movies, NeedsFetch(id)))
  }

  /** The detail fetch for `id` returned `d`: every entry with that id gets it and stops loading. */
  function CompleteMovieDetails(s: MoviesUiState, id: int, d: MovieDetails): (r: MoviesUiState)
    ensures |r.movies| == |s.movies| && MoviesOf(r.movies) == MoviesOf(s.movies)
    ensures forall i :: 0 <= i < |s.movies| ==>
              var e, e' := s.movies[i], r.movies[i];
              if e.movie.id == id then e'.details == Some(d) && !e'.isLoadingDetails && e'.isExpanded == e.isExpanded
              else e' == e
    ensures r.(movies := s.movies) == s
  {
    var updated := seq(|s.movies|, i requires 0 <= i < |s.movies| =>
                     if s.movies[i].movie.id == id then s.movies[i].(details := Some(d), isLoadingDetails := false)
                     else s.movies[i]);
    assert MoviesOf(updated) == MoviesOf(s.movies);
    s.(movies := updated)
  }

  /** The detail fetch for `id` threw: the entries with that id stop loading and keep what details they had. */
  function FailMovieDetails(s: MoviesUiState, id: int): (r: MoviesUiState)
    ensures |r.movies| == |s.movies| && MoviesOf(r.movies) == MoviesOf(s.movies)
    ensures forall i :: 0 <= i < |s.movies| ==>
              var e, e' := s.movies[i], r.movies[i];
              if e.movie.id == id then e'.details == e.details && !e'.isLoadingDetails && e'.isExpanded == e.isExpanded
              else e' == e
    ensures r.(movies := s.movies) == s
  {
    var updated := seq(|s.movies|, i requires 0 <= i < |s.movies| =>
                     if s.movies[i].movie.id == id then s.movies[i].(isLoadingDetails := false)
                     else s.movies[i]);
    assert MoviesOf(updated) == MoviesOf(s.movies);
    s.(movies := updated)
  }

  /** Two toggles of the same id (expand, then collapse) leave the state exactly as it was: the loading flag is lost. */
  lemma ToggleTwiceRestores(s: MoviesUiState, id: int)
    ensures ToggleMovieDetails(ToggleMovieDetails(s, id).state, id).state == s
  {
    var s2 := ToggleMovieDetails(ToggleMovieDetails(s, id).state, id).state;
    assert s2.movies == s.movies;
  }

  /** `n` toggles of the same id in a row, with the detail fetches they start added up. */
  function ToggleRepeatedly(s: MoviesUiState, id: int, n: nat, guarded: bool): Toggled
    decreases n
  {
    if n == 0 then Toggled(s, 0)
    else
      var t := if guarded then ToggleMovieDetailsGuarded(s, id) else ToggleMovieDetails(s, id);
      var rest := ToggleRepeatedly(t.state, id, n - 1, guarded);
      Toggled(rest.state, t.fetches + rest.fetches)
  }

  /** Every entry with this id either has its details or has a fetch for them running. */
  ghost predicate Settled(s: MoviesUiState, id: int) {
    forall i :: 0 <= i < |s.movies| && s.movies[i].movie.id == id ==>
      s.movies[i].details.Some? || s.movies[i].isLoadingDetails
  }

  /** A toggle (as written or guarded) keeps `Settled` and then starts no fetch. */
  lemma ToggleKeepsSettled(s: MoviesUiState, id: int, guarded: bool)
    requires Settled(s, id)
    ensures var t := if guarded then ToggleMovieDetailsGuarded(s, id) else ToggleMovieDetails(s, id);
            t.fetches == 0 && Settled(t.state, id)
  {
    var t := if guarded then ToggleMovieDetailsGuarded(s, id) else ToggleMovieDetails(s, id);
    forall i | 0 <= i < |s.movies|
      ensures !NeedsFetch(id)(s.movies[i])
    {
    }
  }

  /** Once every entry with this id is `Settled`, no number of toggles starts a detail fetch for it. */
  lemma {:induction false} SettledNeverRefetches(s: MoviesUiState, id: int, n: nat, guarded: bool)
    requires Settled(s, id)
    ensures ToggleRepeatedly(s, id, n, guarded).fetches == 0
    decreases n
  {
    if n > 0 {
      ToggleKeepsSettled(s, id, guarded);
      var t := if guarded then ToggleMovieDetailsGuarded(s, id) else ToggleMovieDetails(s, id);
      SettledNeverRefetches(t.state, id, n - 1, guarded);
    }
  }

  /** After a successful detail fetch for `id`, toggling that entry any number of times fetches nothing. */
  lemma DetailsLoadedNeverRefetch(s: MoviesUiState, id: int, d: MovieDetails, n: nat, guarded: bool)
    ensures ToggleRepeatedly(CompleteMovieDetails(s, id, d), id, n, guarded).fetches == 0
  {
    SettledNeverRefetches(CompleteMovieDetails(s, id, d), id, n, guarded);
  }

  /** With the guard kept, a toggle that starts a fetch leaves the entry `Settled`: further toggles fetch nothing until it completes. */
  lemma GuardedToggleBlocksRefetch(s: MoviesUiState, id: int, n: nat)
    requires UniqueIds(s.movies)
    requires ToggleMovieDetailsGuarded(s, id).fetches > 0
    ensures ToggleRepeatedly(ToggleMovieDetailsGuarded(s, id).state, id, n, true).fetches == 0
  {
    var t := ToggleMovieDetailsGuarded(s, id);
    var k :| 0 <= k < |s.movies| && NeedsFetch(id)(s.movies[k]);
    forall i | 0 <= i < |t.state.movies| && t.state.movies[i].movie.id == id
      ensures t.state.movies[i].details.Some? || t.state.movies[i].isLoadingDetails
    {
      assert MoviesOf(t.state.movies)[i] == MoviesOf(s.movies)[i];
      assert i == k;
    }
    SettledNeverRefetches(t.state, id, n, true);
  }

  /**
   After a failed detail fetch the entry carries no record of the failure: if it
   is expanded, collapsing and expanding it again starts a new fetch.
   */
  lemma FailureAllowsRetry(s: MoviesUiState, id: int, k: nat)
    requires k < |s.movies| && s.movies[k].movie.id == id
    requires s.movies[k].isExpanded && s.movies[k].details.None?
    ensures ToggleRepeatedly(FailMovieDetails(s, id), id, 2, false).fetches > 0
  {
    var f := FailMovieDetails(s, id);
    var t1 := ToggleMovieDetails(f, id);
    var t2 := ToggleMovieDetails(t1.state, id);
    assert NeedsFetch(id)(t1.state.movies[k]);
    assert t2.fetches > 0;
    assert ToggleRepeatedly(t2.state, id, 0, false).fetches == 0;
  }

  // ---------------------------------------------------------------- selectGenre / poster modal

  /** `selectGenre`: only the selected genre changes; the stored list, counts and paging are untouched. */
  function SelectGenre(s: MoviesUiState, genreId: Option<int>): (r: MoviesUiState)
    ensures r.selectedGenreId == genreId
    ensures r.(selectedGenreId := s.selectedGenreId) == s
  {
    s.(selectedGenreId := genreId)
  }

  /** `showPosterModal`: only the selected poster changes. */
  function ShowPosterModal(s: MoviesUiState, movieId: int): (r: MoviesUiState)
    ensures r.selectedPosterId == Some(movieId)
    ensures r.(selectedPosterId := s.selectedPosterId) == s
  {
    s.(selectedPosterId := Some(movieId))
  }

  /** `hidePosterModal`: only the selected poster is cleared. */
  function HidePosterModal(s: MoviesUiState): (r: MoviesUiState)
    ensures r.selectedPosterId.None?
    ensures r.(selectedPosterId := s.selectedPosterId) == s
  {
    s.(selectedPosterId := None)
  }
}

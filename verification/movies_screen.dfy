/**
 The pure rules inside the `MoviesScreen` composable: which entries the list
 shows, which are highlighted, when scrolling asks for another page, and which
 movie the poster dialog shows. All of them read `MoviesUiState` and change nothing.
 */
module MoviesScreen {
  import opened Wrappers
  import opened Seqs
  import opened MoviesViewModel

  /** The list shown: the stored entries, narrowed to the selected genre when there is one. */
  function DisplayedMovies(s: MoviesUiState): (r: seq<MovieWithDetails>)
    ensures s.selectedGenreId.None? ==> r == s.movies
    ensures s.selectedGenreId.Some? ==>
              && (forall i :: 0 <= i < |r| ==> r[i] in s.movies && s.selectedGenreId.value in r[i].movie.genreIds)
              && (forall i :: 0 <= i < |s.movies| && s.selectedGenreId.value in s.movies[i].movie.genreIds ==> s.movies[i] in r)
              && |r| == CountWithGenre(s.movies, s.selectedGenreId.value)
    ensures IsSubsequence(r, s.movies)
    ensures |r| <= |s.movies|
  {
    match s.selectedGenreId
    case Some(g) =>
      FilterIsSubsequence(s.movies, WithGenre(g));
      FilterKeepsPassing(s.movies, WithGenre(g));
      FilterLength(s.movies, WithGenre(g));
      Filter(s.movies, WithGenre(g))
    case None =>
      SubsequenceOfItself(s.movies);
      s.movies
  }

  lemma {:induction false} SubsequenceOfItself<T>(s: seq<T>)
    ensures IsSubsequence(s, s)
    decreases |s|
  {
    if |s| > 0 {
      SubsequenceOfItself(s[1..]);
    }
  }

  /** An entry is highlighted when a genre is selected and the entry's movie lists it. */
  predicate IsHighlighted(s: MoviesUiState, e: MovieWithDetails) {
    s.selectedGenreId.Some? && s.selectedGenreId.value in e.movie.genreIds
  }

  /** With a genre selected every shown entry is highlighted; with none, no entry is. */
  lemma HighlightMatchesFilter(s: MoviesUiState)
    ensures s.selectedGenreId.Some? ==> forall i :: 0 <= i < |DisplayedMovies(s)| ==> IsHighlighted(s, DisplayedMovies(s)[i])
    ensures s.selectedGenreId.None? ==> forall i :: 0 <= i < |s.movies| ==> !IsHighlighted(s, s.movies[i])
  {
  }

  /** Choosing a filter never touches the stored list; clearing it shows the whole list again. */
  lemma FilterIsNonDestructive(s: MoviesUiState, genreId: Option<int>)
    ensures SelectGenre(s, genreId).movies == s.movies
    ensures DisplayedMovies(SelectGenre(SelectGenre(s, genreId), None)) == s.movies
  {
  }

  /** When the histogram is current, a chip's count is the length of the list shown while that chip is selected. */
  lemma ChipCountIsDisplayedLength(s: MoviesUiState, k: nat)
    requires CountsFresh(s)
    requires k < |s.genreCounts|
    requires s.selectedGenreId == Some(s.genreCounts[k].genre.id)
    ensures |DisplayedMovies(s)| == s.genreCounts[k].count
  {
  }

  /** A page load keeps what was shown in place and shows the new entries that match after it. */
  lemma {:induction false} PageLoadExtendsDisplay(s: MoviesUiState, fetched: seq<Movie>)
    ensures var r := CompleteLoadMovies(s, fetched);
            DisplayedMovies(r) == DisplayedMovies(s) + DisplayedMovies(r.(movies := r.movies[|s.movies|..]))
  {
    var r := CompleteLoadMovies(s, fetched);
    var tail := r.movies[|s.movies|..];
    assert r.movies == s.movies + tail;
    if s.selectedGenreId.Some? {
      FilterAppend(s.movies, tail, WithGenre(s.selectedGenreId.value));
    }
  }

  /**
   The scroll trigger: ask for another page when the last visible row index is
   within three of the end of the STORED list (not of the list shown).
   */
  function ShouldLoadMore(lastVisibleIndex: Option<int>, s: MoviesUiState): (r: bool)
    ensures r ==> lastVisibleIndex.Some? && |s.movies| - lastVisibleIndex.value <= 3
    ensures lastVisibleIndex.Some? && lastVisibleIndex.value + 3 >= |s.movies| ==> r
  {
    lastVisibleIndex.Some? && lastVisibleIndex.value >= |s.movies| - 3
  }

  /** Five listed movies with distinct ids, only the first of genre 28. */
  function NearEndSample(): seq<Movie> {
    [ Movie(1, "", "", "", "", 8.0, [28]), Movie(2, "", "", "", "", 8.0, [12]), Movie(3, "", "", "", "", 8.0, [12])
    , Movie(4, "", "", "", "", 8.0, [12]), Movie(5, "", "", "", "", 8.0, [12]) ]
  }

  /** The trigger ignores the genre filter: with a filter active, reaching the end of a short shown list may ask for nothing. */
  lemma NearEndIgnoresFilter(s: MoviesUiState, lastVisibleIndex: Option<int>, genreId: Option<int>)
    ensures ShouldLoadMore(lastVisibleIndex, SelectGenre(s, genreId)) == ShouldLoadMore(lastVisibleIndex, s)
    ensures var t := InitialState().(movies := WrapAll(NearEndSample()), selectedGenreId := Some(28));
            UniqueIds(t.movies) && |DisplayedMovies(t)| == 1 && !ShouldLoadMore(Some(0), t)
  {
    var t := InitialState().(movies := WrapAll(NearEndSample()), selectedGenreId := Some(28));
    var ms := NearEndSample();
    assert t.movies == [Wrap(ms[0]), Wrap(ms[1]), Wrap(ms[2]), Wrap(ms[3]), Wrap(ms[4])];
    assert Count(t.movies, WithGenre(28)) == 1;
  }

  /** The position of the first entry with movie id `id`, as Kotlin's `find` scans. */
  function FirstIndexOf(entries: seq<MovieWithDetails>, id: int): (r: Option<nat>)
    ensures r.Some? ==> r.value < |entries| && entries[r.value].movie.id == id
                        && forall j :: 0 <= j < r.value ==> entries[j].movie.id != id
    ensures r.None? ==> forall j :: 0 <= j < |entries| ==> entries[j].movie.id != id
    decreases |entries|
  {
    if |entries| == 0 then None
    else if entries[0].movie.id == id then Some(0)
    else
      match FirstIndexOf(entries[1..], id)
      case None => None
      case Some(k) => Some(k + 1)
  }

  /** The entry the poster dialog shows: none without a selection or when no entry has the selected id. */
  function PosterMovie(s: MoviesUiState): (r: Option<MovieWithDetails>)
    ensures r.Some? <==> s.selectedPosterId.Some? && s.selectedPosterId.value in MovieIds(s.movies)
    ensures r.Some? ==> exists k :: 0 <= k < |s.movies| && s.movies[k] == r.value
                          && r.value.movie.id == s.selectedPosterId.value
                          && forall j :: 0 <= j < k ==> s.movies[j].movie.id != s.selectedPosterId.value
  {
    match s.selectedPosterId
    case None => None
    case Some(id) =>
      match FirstIndexOf(s.movies, id)
      case None =>
        assert id !in MovieIds(s.movies);
        None
      case Some(k) =>
        assert MovieIds(s.movies)[k] == id;
        Some(s.movies[k])
  }

  /** Clicking a poster of a listed movie opens the dialog on it; dismissing it closes the dialog. */
  lemma PosterModalRoundTrip(s: MoviesUiState, k: nat)
    requires k < |s.movies| && UniqueIds(s.movies)
    ensures PosterMovie(ShowPosterModal(s, s.movies[k].movie.id)) == Some(s.movies[k])
    ensures PosterMovie(HidePosterModal(ShowPosterModal(s, s.movies[k].movie.id))) == None
  {
    var t := ShowPosterModal(s, s.movies[k].movie.id);
    assert MovieIds(t.movies)[k] == s.movies[k].movie.id;
  }
}

/**
 One `MoviesViewModel` over its lifetime. The network is the environment: a
 fetch started by a "start" step stays in flight until an event delivers its
 result (success or failure). Each event is one write to `_uiState`; the only
 interleaving modelled is that results arrive between user actions.

 A session runs under one of two variants: `AsWritten` follows the source line
 for line; `Corrected` keeps the detail-loading flag that `toggleMovieDetails`
 loses and recounts genres when `loadGenres` completes.
 */
module Sessions {
  import opened Wrappers
  import opened Seqs
  import opened MoviesViewModel

  datatype Variant = AsWritten | Corrected

  datatype Session = Session(
    ui: MoviesUiState,
    pageInFlight: Option<int>,         // the page a running `getTopMovies` asked for
    detailsInFlight: multiset<int>,    // one element per running `getMovieDetails(id)`
    genresInFlight: bool,              // `getGenres` still running
    pagesRequested: seq<int>)          // every page number ever asked for, in order

  datatype Event =
    | LoadMoreRequested                               // the screen calls `loadMovies()`
    | PageLoaded(fetched: seq<Movie>)                 // `getTopMovies` returned
    | PageFailed                                      // `getTopMovies` threw
    | GenresLoaded(genres: seq<Genre>)                // `getGenres` returned
    | GenresFailed                                    // `getGenres` threw
    | DetailsToggled(id: int)                         // `toggleMovieDetails(id)`
    | DetailsLoaded(id: int, details: MovieDetails)   // `getMovieDetails(id)` returned
    | DetailsFailed(id: int)                          // `getMovieDetails(id)` threw
    | GenreSelected(genreId: Option<int>)             // `selectGenre`
    | PosterShown(id: int)                            // `showPosterModal`
    | PosterHidden                                    // `hidePosterModal`

  /**
   The data source never repeats a movie id: a fetched page has distinct ids, none
   already in the list. The source relies on this and does not check it.
   */
  predicate FreshIds(entries: seq<MovieWithDetails>, fetched: seq<Movie>) {
    && KeysDistinct(fetched, (m: Movie) => m.id)
    && (forall i :: 0 <= i < |fetched| ==> fetched[i].id !in MovieIds(entries))
  }

  /** A result can only arrive for a fetch that is running. */
  predicate Enabled(s: Session, e: Event) {
    match e
    case PageLoaded(fetched) => s.pageInFlight.Some? && FreshIds(s.ui.movies, fetched)
    case PageFailed => s.pageInFlight.Some?
    case GenresLoaded(_) => s.genresInFlight
    case GenresFailed => s.genresInFlight
    case DetailsLoaded(id, _) => id in s.detailsInFlight
    case DetailsFailed(id) => id in s.detailsInFlight
    case _ => true
  }

  /** One event; an event that cannot happen in `s` leaves it unchanged. */
  function Step(v: Variant, s: Session, e: Event): Session {
    if !Enabled(s, e) then s
    else
      match e
      case LoadMoreRequested =>
        var start := StartLoadMovies(s.ui);
        if start.request.Some? then
          s.(ui := start.state, pageInFlight := start.request, pagesRequested := s.pagesRequested + [start.request.value])
        else s
      case PageLoaded(fetched) => s.(ui := CompleteLoadMovies(s.ui, fetched), pageInFlight := None)
      case PageFailed => s.(ui := FailLoadMovies(s.ui), pageInFlight := None)
      case GenresLoaded(genres) =>
        var ui := if v.Corrected? then CompleteLoadGenresRecounted(s.ui, genres) else CompleteLoadGenres(s.ui, genres);
        s.(ui := ui, genresInFlight := false)
      case GenresFailed => s.(genresInFlight := false)
      case DetailsToggled(id) =>
        var t := if v.Corrected? then ToggleMovieDetailsGuarded(s.ui, id) else ToggleMovieDetails(s.ui, id);
        s.(ui := t.state, detailsInFlight := s.detailsInFlight[id := s.detailsInFlight[id] + t.fetches])
      case DetailsLoaded(id, d) => s.(ui := CompleteMovieDetails(s.ui, id, d), detailsInFlight := s.detailsInFlight - multiset{id})
      case DetailsFailed(id) => s.(ui := FailMovieDetails(s.ui, id), detailsInFlight := s.detailsInFlight - multiset{id})
      case GenreSelected(genreId) => s.(ui := SelectGenre(s.ui, genreId))
      case PosterShown(id) => s.(ui := ShowPosterModal(s.ui, id))
      case PosterHidden => s.(ui := HidePosterModal(s.ui))
  }

  function Run(v: Variant, s: Session, events: seq<Event>): Session
    decreases |events|
  {
    if |events| == 0 then s else Run(v, Step(v, s, events[0]), events[1..])
  }

  /** `init`: `loadGenres()` starts the genre fetch, then `loadMovies()` starts page 1. */
  function Launch(v: Variant): (s: Session)
    ensures s.pageInFlight == Some(1) && s.pagesRequested == [1] && s.genresInFlight
    ensures s.ui.isLoading && s.ui.movies == []
  {
    Step(v, Session(InitialState(), None, multiset{}, true, []), LoadMoreRequested)
  }

  // ---------------------------------------------------------------- pagination

  /** `isLoading` is true exactly while a page fetch runs, which is always for the current page. */
  ghost predicate PageInv(s: Session) {
    && (s.pageInFlight.Some? <==> s.ui.isLoading)
    && (s.ui.isLoading ==> s.ui.hasMore)
    && (s.pageInFlight.Some? ==> s.pageInFlight.value == s.ui.currentPage)
  }

  lemma PageInvStep(v: Variant, s: Session, e: Event)
    requires PageInv(s)
    ensures PageInv(Step(v, s, e))
  {
  }

  lemma {:induction false} PageInvRun(v: Variant, s: Session, events: seq<Event>)
    requires PageInv(s)
    ensures PageInv(Run(v, s, events))
    decreases |events|
  {
    if |events| > 0 {
      PageInvStep(v, s, events[0]);
      PageInvRun(v, Step(v, s, events[0]), events[1..]);
    }
  }

  /** In every reachable session, a `loadMovies()` call while a page is in flight does nothing. */
  lemma PaginationGuard(v: Variant, events: seq<Event>)
    ensures var s := Run(v, Launch(v), events);
            s.pageInFlight.Some? ==> Step(v, s, LoadMoreRequested) == s
  {
    PageInvRun(v, Launch(v), events);
  }

  /** Exhaustion is final: once `hasMore` is false, no event asks for a page, grows the list or moves the page counter. */
  lemma {:induction false} ExhaustionIsFinal(v: Variant, s: Session, events: seq<Event>)
    requires PageInv(s) && !s.ui.hasMore
    ensures var t := Run(v, s, events);
            && !t.ui.hasMore
            && t.pagesRequested == s.pagesRequested
            && t.ui.currentPage == s.ui.currentPage
            && |t.ui.movies| == |s.ui.movies|
    decreases |events|
  {
    if |events| > 0 {
      var s1 := Step(v, s, events[0]);
      PageInvStep(v, s, events[0]);
      ExhaustionIsFinal(v, s1, events[1..]);
    }
  }

  /** A failed page is asked for again by the next `loadMovies()`: the same page number, nothing appended. */
  lemma PageFailureRetriesSamePage(v: Variant, s: Session)
    requires PageInv(s) && s.pageInFlight.Some?
    ensures var t := Step(v, Step(v, s, PageFailed), LoadMoreRequested);
            && t.pageInFlight == s.pageInFlight
            && t.ui.movies == s.ui.movies
            && t.pagesRequested == s.pagesRequested + [s.ui.currentPage]
  {
  }

  // ---------------------------------------------------------------- detail fetches (corrected variant)

  /**
   Ids are unique; a running detail fetch is for a listed id and is the only one
   for it; an entry shows `isLoadingDetails` exactly while a fetch for it runs.
   */
  ghost predicate DetailsConsistent(m: seq<MovieWithDetails>, inflight: multiset<int>) {
    && UniqueIds(m)
    && (forall id :: id in inflight ==> inflight[id] == 1 && id in MovieIds(m))
    && (forall i :: 0 <= i < |m| ==> (m[i].isLoadingDetails <==> m[i].movie.id in inflight))
  }

  ghost predicate DetailInv(s: Session) {
    DetailsConsistent(s.ui.movies, s.detailsInFlight)
  }

  /** Everything the corrected session keeps true. */
  ghost predicate Inv(s: Session) {
    PageInv(s) && DetailInv(s) && CountsFresh(s.ui)
  }

  lemma SameMoviesSameIds(a: seq<MovieWithDetails>, b: seq<MovieWithDetails>)
    requires MoviesOf(a) == MoviesOf(b)
    ensures MovieIds(a) == MovieIds(b) && |a| == |b|
    ensures forall i :: 0 <= i < |a| ==> a[i].movie == b[i].movie
    ensures UniqueIds(a) ==> UniqueIds(b)
  {
    assert |a| == |MoviesOf(a)|;
    forall i | 0 <= i < |a|
      ensures a[i].movie == b[i].movie
    {
      assert MoviesOf(a)[i] == MoviesOf(b)[i];
    }
  }

  /** Appending entries that are not loading and whose ids are new keeps the detail bookkeeping consistent. */
  lemma AppendKeepsConsistent(m: seq<MovieWithDetails>, tail: seq<MovieWithDetails>, inflight: multiset<int>)
    requires DetailsConsistent(m, inflight)
    requires UniqueIds(tail)
    requires forall k :: 0 <= k < |tail| ==> !tail[k].isLoadingDetails && tail[k].movie.id !in MovieIds(m)
    ensures DetailsConsistent(m + tail, inflight)
  {
    var r := m + tail;
    var n := |m|;
    assert MovieIds(r) == MovieIds(m) + MovieIds(tail);
    forall i, k | 0 <= i < n && 0 <= k < |tail|
      ensures m[i].movie.id != tail[k].movie.id
    {
      assert MovieIds(m)[i] == m[i].movie.id;
    }
    forall i, j | 0 <= i < |r| && 0 <= j < |r| && r[i].movie.id == r[j].movie.id
      ensures i == j
    {
      if i >= n && j >= n {
        assert r[i] == tail[i - n] && r[j] == tail[j - n];
      }
    }
  }

  /** The entries a successful page adds: fresh, with distinct ids, none already listed. */
  lemma PageTail(ui: MoviesUiState, fetched: seq<Movie>) returns (tail: seq<MovieWithDetails>)
    requires FreshIds(ui.movies, fetched)
    ensures CompleteLoadMovies(ui, fetched).movies == ui.movies + tail
    ensures UniqueIds(tail)
    ensures forall k :: 0 <= k < |tail| ==> !tail[k].isLoadingDetails && tail[k].movie.id !in MovieIds(ui.movies)
  {
    var r := CompleteLoadMovies(ui, fetched);
    var n := |ui.movies|;
    var passing := Filter(fetched, Passes);
    tail := r.movies[n..];
    assert r.movies == ui.movies + tail;
    assert MoviesOf(r.movies) == MoviesOf(ui.movies) + MoviesOf(tail);
    assert MoviesOf(tail) == passing;
    FilterKeysDistinct(fetched, Passes, (m: Movie) => m.id);
    forall k | 0 <= k < |tail|
      ensures tail[k].movie == passing[k] && !tail[k].isLoadingDetails && tail[k].movie.id !in MovieIds(ui.movies)
    {
      assert MoviesOf(tail)[k] == tail[k].movie;
      assert r.movies[n + k] == tail[k];
      assert passing[k] in fetched;
      var m :| 0 <= m < |fetched| && fetched[m] == passing[k];
    }
    forall i, j | 0 <= i < |tail| && 0 <= j < |tail| && tail[i].movie.id == tail[j].movie.id
      ensures i == j
    {
      assert passing[i].id == passing[j].id;
    }
  }

  lemma DetailInvPageLoaded(s: Session, fetched: seq<Movie>)
    requires DetailInv(s) && FreshIds(s.ui.movies, fetched)
    ensures DetailInv(s.(ui := CompleteLoadMovies(s.ui, fetched), pageInFlight := None))
  {
    var tail := PageTail(s.ui, fetched);
    AppendKeepsConsistent(s.ui.movies, tail, s.detailsInFlight);
  }

  /** With unique ids, at most one entry can need a fetch for `id`. */
  lemma AtMostOneFetch(m: seq<MovieWithDetails>, id: int)
    requires UniqueIds(m)
    ensures Count(m, NeedsFetch(id)) <= 1
  {
    forall i, j | 0 <= i < |m| && 0 <= j < |m| && NeedsFetch(id)(m[i]) && NeedsFetch(id)(m[j])
      ensures i == j
    {
    }
    CountAtMostOne(m, NeedsFetch(id));
  }

  /** A guarded toggle adds a running fetch exactly for the entry it marks as loading. */
  lemma GuardedToggleKeepsConsistent(m: seq<MovieWithDetails>, m': seq<MovieWithDetails>, inflight: multiset<int>, id: int)
    requires DetailsConsistent(m, inflight)
    requires MoviesOf(m') == MoviesOf(m)
    requires forall i :: 0 <= i < |m| ==> m'[i].isLoadingDetails == (m[i].isLoadingDetails || NeedsFetch(id)(m[i]))
    ensures DetailsConsistent(m', inflight[id := inflight[id] + Count(m, NeedsFetch(id))])
  {
    SameMoviesSameIds(m, m');
    AtMostOneFetch(m, id);
    if Count(m, NeedsFetch(id)) > 0 {
      StartedFetchConsistent(m, m', inflight, id);
      assert inflight[id := inflight[id] + 1] == inflight + multiset{id};
    } else {
      NoFetchConsistent(m, m', inflight, id);
      assert inflight[id := inflight[id] + 0] == inflight;
    }
  }

  lemma NoFetchConsistent(m: seq<MovieWithDetails>, m': seq<MovieWithDetails>, inflight: multiset<int>, id: int)
    requires DetailsConsistent(m, inflight)
    requires MovieIds(m') == MovieIds(m) && UniqueIds(m') && |m'| == |m|
    requires forall i :: 0 <= i < |m| ==> m'[i].movie == m[i].movie
    requires forall i :: 0 <= i < |m| ==> m'[i].isLoadingDetails == (m[i].isLoadingDetails || NeedsFetch(id)(m[i]))
    requires Count(m, NeedsFetch(id)) == 0
    ensures DetailsConsistent(m', inflight)
  {
    forall i | 0 <= i < |m'|
      ensures m'[i].isLoadingDetails <==> m'[i].movie.id in inflight
    {
      assert !NeedsFetch(id)(m[i]);
    }
  }

  lemma StartedFetchConsistent(m: seq<MovieWithDetails>, m': seq<MovieWithDetails>, inflight: multiset<int>, id: int)
    requires DetailsConsistent(m, inflight)
    requires MoviesOf(m') == MoviesOf(m) && MovieIds(m') == MovieIds(m) && UniqueIds(m')
    requires forall i :: 0 <= i < |m| ==> m'[i].movie == m[i].movie
    requires forall i :: 0 <= i < |m| ==> m'[i].isLoadingDetails == (m[i].isLoadingDetails || NeedsFetch(id)(m[i]))
    requires Count(m, NeedsFetch(id)) == 1
    ensures DetailsConsistent(m', inflight + multiset{id})
  {
    var k :| 0 <= k < |m| && NeedsFetch(id)(m[k]);
    assert MovieIds(m)[k] == id;
    assert id !in inflight;
    var inflight' := inflight + multiset{id};
    forall i | 0 <= i < |m'|
      ensures m'[i].isLoadingDetails <==> m'[i].movie.id in inflight'
    {
      if m[i].movie.id == id {
        assert i == k;
      }
    }
  }

  lemma DetailInvToggled(s: Session, id: int)
    requires DetailInv(s)
    ensures var t := ToggleMovieDetailsGuarded(s.ui, id);
            DetailInv(s.(ui := t.state, detailsInFlight := s.detailsInFlight[id := s.detailsInFlight[id] + t.fetches]))
  {
    var t := ToggleMovieDetailsGuarded(s.ui, id);
    GuardedToggleKeepsConsistent(s.ui.movies, t.state.movies, s.detailsInFlight, id);
  }

  /** A detail result (success or failure) for `id` clears the flag on that id's entry and ends its fetch. */
  lemma DetailInvResult(s: Session, id: int, r: MoviesUiState)
    requires DetailInv(s) && id in s.detailsInFlight
    requires MoviesOf(r.movies) == MoviesOf(s.ui.movies)
    requires forall i :: 0 <= i < |s.ui.movies| ==>
               if s.ui.movies[i].movie.id == id then !r.movies[i].isLoadingDetails
               else r.movies[i].isLoadingDetails == s.ui.movies[i].isLoadingDetails
    ensures DetailInv(s.(ui := r, detailsInFlight := s.detailsInFlight - multiset{id}))
  {
    var m, m' := s.ui.movies, r.movies;
    var inflight := s.detailsInFlight - multiset{id};
    SameMoviesSameIds(m, m');
    assert id !in inflight;
    forall i | 0 <= i < |m'|
      ensures m'[i].isLoadingDetails <==> m'[i].movie.id in inflight
    {
      assert m'[i].movie == m[i].movie;
    }
  }

  lemma InvPageLoaded(s: Session, fetched: seq<Movie>)
    requires Inv(s) && Enabled(s, PageLoaded(fetched))
    ensures Inv(Step(Corrected, s, PageLoaded(fetched)))
  {
    PageInvStep(Corrected, s, PageLoaded(fetched));
    DetailInvPageLoaded(s, fetched);
  }

  lemma InvToggled(s: Session, id: int)
    requires Inv(s)
    ensures Inv(Step(Corrected, s, DetailsToggled(id)))
  {
    var t := ToggleMovieDetailsGuarded(s.ui, id);
    var s' := s.(ui := t.state, detailsInFlight := s.detailsInFlight[id := s.detailsInFlight[id] + t.fetches]);
    StepToggled(s, id);
    PageInvEntriesOnly(s, s');
    DetailInvToggled(s, id);
    CountsFreshToggled(s.ui, id);
  }

  lemma StepToggled(s: Session, id: int)
    ensures var t := ToggleMovieDetailsGuarded(s.ui, id);
            Step(Corrected, s, DetailsToggled(id))
              == s.(ui := t.state, detailsInFlight := s.detailsInFlight[id := s.detailsInFlight[id] + t.fetches])
  {
  }

  lemma CountsFreshToggled(ui: MoviesUiState, id: int)
    requires CountsFresh(ui)
    ensures CountsFresh(ToggleMovieDetailsGuarded(ui, id).state)
  {
    var t := ToggleMovieDetailsGuarded(ui, id);
    GenreCountsIgnoreEntryState(ui.genres, ui.movies, t.state.movies);
  }

  /** A step that only rewrites entries and the running detail fetches keeps the page invariant. */
  lemma PageInvEntriesOnly(s: Session, s': Session)
    requires PageInv(s)
    requires s'.ui.(movies := s.ui.movies) == s.ui && s'.pageInFlight == s.pageInFlight
    ensures PageInv(s')
  {
  }

  lemma InvDetailsLoaded(s: Session, id: int, d: MovieDetails)
    requires Inv(s) && Enabled(s, DetailsLoaded(id, d))
    ensures Inv(Step(Corrected, s, DetailsLoaded(id, d)))
  {
    var r := CompleteMovieDetails(s.ui, id, d);
    var s' := s.(ui := r, detailsInFlight := s.detailsInFlight - multiset{id});
    assert Step(Corrected, s, DetailsLoaded(id, d)) == s';
    PageInvEntriesOnly(s, s');
    DetailInvResult(s, id, r);
    GenreCountsIgnoreEntryState(s.ui.genres, s.ui.movies, r.movies);
  }

  lemma InvDetailsFailed(s: Session, id: int)
    requires Inv(s) && Enabled(s, DetailsFailed(id))
    ensures Inv(Step(Corrected, s, DetailsFailed(id)))
  {
    var r := FailMovieDetails(s.ui, id);
    var s' := s.(ui := r, detailsInFlight := s.detailsInFlight - multiset{id});
    assert Step(Corrected, s, DetailsFailed(id)) == s';
    PageInvEntriesOnly(s, s');
    DetailInvResult(s, id, r);
    GenreCountsIgnoreEntryState(s.ui.genres, s.ui.movies, r.movies);
  }

  lemma InvStep(s: Session, e: Event)
    requires Inv(s)
    ensures Inv(Step(Corrected, s, e))
  {
    if !Enabled(s, e) {
      return;
    }
    match e
    case PageLoaded(fetched) => InvPageLoaded(s, fetched);
    case DetailsToggled(id) => InvToggled(s, id);
    case DetailsLoaded(id, d) => InvDetailsLoaded(s, id, d);
    case DetailsFailed(id) => InvDetailsFailed(s, id);
    case _ => PageInvStep(Corrected, s, e);
  }

  lemma {:induction false} InvRun(s: Session, events: seq<Event>)
    requires Inv(s)
    ensures Inv(Run(Corrected, s, events))
    decreases |events|
  {
    if |events| > 0 {
      InvStep(s, events[0]);
      InvRun(Step(Corrected, s, events[0]), events[1..]);
    }
  }

  /**
   Corrected: whatever happens, no movie ever has two detail fetches running, and
   the genre histogram always agrees with the genres and the list.
   */
  lemma CorrectedSessionSound(events: seq<Event>)
    ensures var s := Run(Corrected, Launch(Corrected), events);
            && (forall id :: s.detailsInFlight[id] <= 1)
            && CountsFresh(s.ui)
  {
    var s0 := Launch(Corrected);
    assert Inv(s0);
    InvRun(s0, events);
    var s := Run(Corrected, s0, events);
    forall id
      ensures s.detailsInFlight[id] <= 1
    {
      if id in s.detailsInFlight {
      }
    }
  }

  // ---------------------------------------------------------------- findings (as written)

  function Sample(id: int, genre: int): Movie {
    Movie(id, "", "", "", "", 8.0, [genre])
  }

  lemma RunThree(v: Variant, s: Session, a: Event, b: Event, c: Event)
    ensures Run(v, s, [a, b, c]) == Step(v, Step(v, Step(v, s, a), b), c)
  {
    var events := [a, b, c];
    var s1 := Step(v, s, a);
    var s2 := Step(v, s1, b);
    assert events[1..] == [b, c] && [b, c][1..] == [c] && [c][1..] == [];
    assert Run(v, s, events) == Run(v, s1, [b, c]);
    assert Run(v, s1, [b, c]) == Run(v, s2, [c]);
    assert Run(v, s2, [c]) == Run(v, Step(v, s2, c), []);
  }

  /** The only entry with `id` is expanded, so a toggle collapses it and starts no fetch. */
  lemma CollapseStartsNothing(m: seq<MovieWithDetails>, k: nat)
    requires k < |m| && UniqueIds(m) && m[k].isExpanded
    ensures Count(m, NeedsFetch(m[k].movie.id)) == 0
  {
    forall i | 0 <= i < |m|
      ensures !NeedsFetch(m[k].movie.id)(m[i])
    {
    }
  }

  /** The only entry with `id` would start a fetch, so a toggle starts exactly one. */
  lemma ExpandStartsOne(m: seq<MovieWithDetails>, k: nat)
    requires k < |m| && UniqueIds(m) && IsFresh(m[k])
    ensures Count(m, NeedsFetch(m[k].movie.id)) == 1
  {
    AtMostOneFetch(m, m[k].movie.id);
    assert NeedsFetch(m[k].movie.id)(m[k]);
  }

  /**
   As written: expanding an entry, collapsing it and expanding it again while the
   first detail fetch is still running starts a second fetch for the same movie,
   because the toggle has lost the loading flag.
   */
  lemma AsWrittenDuplicateDetailFetch(s: Session, k: nat)
    requires k < |s.ui.movies| && UniqueIds(s.ui.movies) && IsFresh(s.ui.movies[k])
    ensures var id := s.ui.movies[k].movie.id;
            Run(AsWritten, s, [DetailsToggled(id), DetailsToggled(id), DetailsToggled(id)]).detailsInFlight[id]
              == s.detailsInFlight[id] + 2
  {
    var id := s.ui.movies[k].movie.id;
    RunThree(AsWritten, s, DetailsToggled(id), DetailsToggled(id), DetailsToggled(id));
    var s1 := Step(AsWritten, s, DetailsToggled(id));
    ExpandStartsOne(s.ui.movies, k);
    assert s1.detailsInFlight[id] == s.detailsInFlight[id] + 1;
    SameMoviesSameIds(s.ui.movies, s1.ui.movies);
    assert s1.ui.movies[k].movie.id == id;
    var s2 := Step(AsWritten, s1, DetailsToggled(id));
    CollapseStartsNothing(s1.ui.movies, k);
    assert s2.detailsInFlight[id] == s.detailsInFlight[id] + 1;
    ToggleTwiceRestores(s.ui, id);
    assert s2.ui == s.ui;
    var s3 := Step(AsWritten, s2, DetailsToggled(id));
    assert s3.detailsInFlight[id] == s.detailsInFlight[id] + 2;
  }

  /**
   As written, from launch: the first page brings movie 5, and tapping it three
   times before its details return leaves two detail fetches for it running.
   */
  lemma AsWrittenDuplicateFromLaunch()
    ensures var events := [PageLoaded([Sample(5, 28)]), DetailsToggled(5), DetailsToggled(5), DetailsToggled(5)];
            Run(AsWritten, Launch(AsWritten), events).detailsInFlight[5] == 2
  {
    var s0 := Launch(AsWritten);
    var events := [PageLoaded([Sample(5, 28)]), DetailsToggled(5), DetailsToggled(5), DetailsToggled(5)];
    assert FreshIds(s0.ui.movies, [Sample(5, 28)]);
    var s1 := Step(AsWritten, s0, events[0]);
    assert s1.ui.movies == [Wrap(Sample(5, 28))] && s1.detailsInFlight == multiset{};
    assert events[1..] == [DetailsToggled(5), DetailsToggled(5), DetailsToggled(5)];
    assert Run(AsWritten, s0, events) == Run(AsWritten, s1, events[1..]);
    AsWrittenDuplicateDetailFetch(s1, 0);
  }

  /** No entry shows a detail fetch running. */
  ghost predicate NoneLoading(m: seq<MovieWithDetails>) {
    forall i :: 0 <= i < |m| ==> !m[i].isLoadingDetails
  }

  lemma NoneLoadingStep(s: Session, e: Event)
    requires NoneLoading(s.ui.movies)
    ensures NoneLoading(Step(AsWritten, s, e).ui.movies)
  {
    var t := Step(AsWritten, s, e);
    if Enabled(s, e) && e.PageLoaded? {
      var n := |s.ui.movies|;
      forall i | 0 <= i < |t.ui.movies|
        ensures !t.ui.movies[i].isLoadingDetails
      {
        if i < n {
          assert t.ui.movies[..n][i] == s.ui.movies[i];
        } else {
          assert IsFresh(t.ui.movies[i]);
        }
      }
    }
  }

  lemma {:induction false} NoneLoadingRun(s: Session, events: seq<Event>)
    requires NoneLoading(s.ui.movies)
    ensures NoneLoading(Run(AsWritten, s, events).ui.movies)
    decreases |events|
  {
    if |events| > 0 {
      NoneLoadingStep(s, events[0]);
      NoneLoadingRun(Step(AsWritten, s, events[0]), events[1..]);
    }
  }

  /**
   As written, no reachable state ever shows an entry loading its details: the
   flag `loadMovieDetails` sets is always overwritten, so the progress indicator
   of an expanded entry never appears while its details are on their way.
   */
  lemma AsWrittenNeverShowsLoading(events: seq<Event>)
    ensures var t := Run(AsWritten, Launch(AsWritten), events);
            forall i :: 0 <= i < |t.ui.movies| ==> !t.ui.movies[i].isLoadingDetails
  {
    NoneLoadingRun(Launch(AsWritten), events);
  }

  /** Corrected: the same expand, collapse, expand starts one fetch, and the entry shows it is loading. */
  lemma CorrectedSingleDetailFetch(s: Session, k: nat)
    requires k < |s.ui.movies| && UniqueIds(s.ui.movies) && IsFresh(s.ui.movies[k])
    ensures var id := s.ui.movies[k].movie.id;
            var t := Run(Corrected, s, [DetailsToggled(id), DetailsToggled(id), DetailsToggled(id)]);
            t.detailsInFlight[id] == s.detailsInFlight[id] + 1 && k < |t.ui.movies| && t.ui.movies[k].isLoadingDetails
  {
    var id := s.ui.movies[k].movie.id;
    RunThree(Corrected, s, DetailsToggled(id), DetailsToggled(id), DetailsToggled(id));
    var s1 := Step(Corrected, s, DetailsToggled(id));
    ExpandStartsOne(s.ui.movies, k);
    assert s1.detailsInFlight[id] == s.detailsInFlight[id] + 1;
    assert s1.ui.movies[k].isLoadingDetails;
    SameMoviesSameIds(s.ui.movies, s1.ui.movies);
    var s2 := Step(Corrected, s1, DetailsToggled(id));
    CollapseStartsNothing(s1.ui.movies, k);
    assert s2.detailsInFlight[id] == s.detailsInFlight[id] + 1;
    SameMoviesSameIds(s1.ui.movies, s2.ui.movies);
    assert s2.ui.movies[k].isLoadingDetails;
    var s3 := Step(Corrected, s2, DetailsToggled(id));
    assert !NeedsFetch(id)(s2.ui.movies[k]);
    forall i | 0 <= i < |s2.ui.movies|
      ensures !NeedsFetch(id)(s2.ui.movies[i])
    {
      if s2.ui.movies[i].movie.id == id {
        assert s2.ui.movies[i].movie.id == s2.ui.movies[k].movie.id;
      }
    }
    assert s3.detailsInFlight[id] == s.detailsInFlight[id] + 1;
  }

  /**
   As written: when page 1 arrives before the genre list, the histogram is
   computed against no genres, and the genre list arriving later does not
   recompute it: the chip row stays empty although a listed movie has a genre.
   */
  lemma AsWrittenStaleGenreCounts()
    ensures var s := Run(AsWritten, Launch(AsWritten), [PageLoaded([Sample(5, 28)]), GenresLoaded([Genre(28, "Action")])]);
            && s.ui.genreCounts == []
            && GenreCounts(s.ui.genres, s.ui.movies) == [GenreCount(Genre(28, "Action"), 1)]
  {
    var s0 := Launch(AsWritten);
    assert FreshIds(s0.ui.movies, [Sample(5, 28)]);
    var s1 := Step(AsWritten, s0, PageLoaded([Sample(5, 28)]));
    assert s1.ui.movies == [Wrap(Sample(5, 28))];
    assert s1.ui.genreCounts == [];
    var s2 := Step(AsWritten, s1, GenresLoaded([Genre(28, "Action")]));
    assert CountWithGenre(s2.ui.movies, 28) == 1;
    var events := [PageLoaded([Sample(5, 28)]), GenresLoaded([Genre(28, "Action")])];
    assert Run(AsWritten, s0, events) == Run(AsWritten, s1, events[1..]);
  }
}

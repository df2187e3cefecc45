/**
 The selection rules of the `GenreFilter` chip row: an "All" chip followed by one
 chip per genre count, which chip shows as selected, and what a click asks
 `selectGenre` to do.
 */
module GenreFilter {
  import opened Wrappers
  import opened Seqs
  import opened MoviesViewModel

  datatype Chip = AllChip | GenreChip(genreCount: GenreCount)

  /** The chips in the order they are laid out: "All" first, then one per genre count in list order. */
  function Chips(genreCounts: seq<GenreCount>): (r: seq<Chip>)
    ensures |r| == |genreCounts| + 1
    ensures r[0] == AllChip
    ensures forall i :: 0 < i < |r| ==> r[i].GenreChip? && r[i].genreCount == genreCounts[i - 1]
  {
    [AllChip] + seq(|genreCounts|, i requires 0 <= i < |genreCounts| => GenreChip(genreCounts[i]))
  }

  /** The `selected` flag of a chip. */
  predicate ChipSelected(c: Chip, selectedGenreId: Option<int>) {
    match c
    case AllChip => selectedGenreId.None?
    case GenreChip(gc) => selectedGenreId == Some(gc.genre.id)
  }

  /** The value a click on the chip hands to `onGenreSelected`. */
  function ChipClick(c: Chip, selectedGenreId: Option<int>): (r: Option<int>)
    ensures c.AllChip? ==> r.None?
    ensures c.GenreChip? ==> (r.None? <==> selectedGenreId == Some(c.genreCount.genre.id))
    ensures c.GenreChip? && r.Some? ==> r.value == c.genreCount.genre.id
  {
    match c
    case AllChip => None
    case GenreChip(gc) => if selectedGenreId == Some(gc.genre.id) then None else Some(gc.genre.id)
  }

  /** A click through `selectGenre`. */
  function Click(s: MoviesUiState, c: Chip): MoviesUiState {
    SelectGenre(s, ChipClick(c, s.selectedGenreId))
  }

  /** Clicking a genre chip flips whether that chip is selected; clicking "All" selects "All". */
  lemma ClickFlipsChip(s: MoviesUiState, c: Chip)
    ensures c.GenreChip? ==> ChipSelected(c, Click(s, c).selectedGenreId) == !ChipSelected(c, s.selectedGenreId)
    ensures c.AllChip? ==> ChipSelected(AllChip, Click(s, c).selectedGenreId)
    ensures Click(s, c).movies == s.movies && Click(s, c).genreCounts == s.genreCounts
  {
  }

  /**
   Clicking the same chip twice restores the selection when it was "All" or that
   chip's genre. When ANOTHER genre was selected, the two clicks end on "All".
   */
  lemma ClickTwice(s: MoviesUiState, c: Chip)
    ensures var g := if c.GenreChip? then Some(c.genreCount.genre.id) else None;
            Click(Click(s, c), c).selectedGenreId
              == if s.selectedGenreId == None || s.selectedGenreId == g then s.selectedGenreId else None
    ensures Click(Click(s, c), c).(selectedGenreId := s.selectedGenreId) == s
  {
  }

  /** Selecting genre 28 and clicking its chip again leaves no filter: a second click deselects. */
  lemma ReselectDeselects(s: MoviesUiState, gc: GenreCount)
    requires gc.genre.id == 28
    ensures Click(SelectGenre(s, Some(28)), GenreChip(gc)).selectedGenreId == None
  {
  }

  /** When the chips' genre ids are distinct, at most one chip is selected, and "All" is selected exactly when no genre is. */
  lemma {:induction false} AtMostOneChipSelected(genreCounts: seq<GenreCount>, selectedGenreId: Option<int>)
    requires KeysDistinct(genreCounts, (gc: GenreCount) => gc.genre.id)
    ensures Count(Chips(genreCounts), (c: Chip) => ChipSelected(c, selectedGenreId)) <= 1
    ensures ChipSelected(Chips(genreCounts)[0], selectedGenreId) <==> selectedGenreId.None?
  {
    var chips := Chips(genreCounts);
    var sel := (c: Chip) => ChipSelected(c, selectedGenreId);
    forall i, j | 0 <= i < |chips| && 0 <= j < |chips| && sel(chips[i]) && sel(chips[j])
      ensures i == j
    {
      if i > 0 && j > 0 {
        assert genreCounts[i - 1].genre.id == genreCounts[j - 1].genre.id;
      }
    }
    CountAtMostOne(chips, sel);
  }

  /** With distinct genre ids and a current histogram, the chip row never shows two selected chips. */
  lemma ChipRowSelection(s: MoviesUiState)
    requires CountsFresh(s)
    requires KeysDistinct(s.genres, (g: Genre) => g.id)
    ensures Count(Chips(s.genreCounts), (c: Chip) => ChipSelected(c, s.selectedGenreId)) <= 1
  {
    GenreCountsDistinct(s.genres, s.movies);
    assert s.genreCounts == GenreCounts(s.genres, s.movies);
    AtMostOneChipSelected(s.genreCounts, s.selectedGenreId);
  }
}

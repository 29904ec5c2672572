/**
 * The search page: a multi-search response is narrowed to movies and TV
 * shows and each surviving entry is normalised field by field.
 */
module Search {
  import opened JsValues

  /** One raw entry of a multi-search response; every field may be missing. */
  datatype SearchResult = SearchResult(
    id: Option<int>,
    title: Option<string>,
    name: Option<string>,
    overview: Option<string>,
    posterPath: Option<string>,
    backdropPath: Option<string>,
    voteAverage: Option<real>,
    releaseDate: Option<string>,
    originalLanguage: Option<string>,
    mediaType: Option<string>,
    genreIds: Option<seq<int>>,
    popularity: Option<real>,
    voteCount: Option<int>
  )

  /** The normalised record the page shows. */
  datatype SearchMovie = SearchMovie(
    id: int,
    title: string,
    overview: string,
    posterPath: string,
    backdropPath: string,
    voteAverage: real,
    releaseDate: string,
    originalLanguage: string,
    mediaType: string,
    genreIds: seq<int>,
    popularity: real,
    voteCount: int
  )

  /** The filter: people and every other media type are dropped. */
  predicate IsMovieOrTv(item: SearchResult) {
    item.mediaType == Some("movie") || item.mediaType == Some("tv")
  }

  /** `.filter(item => item.media_type === "movie" || item.media_type === "tv")`. */
  function KeepMoviesAndTv(items: seq<SearchResult>): (r: seq<SearchResult>)
    ensures |r| <= |items|
    ensures forall x :: x in r <==> x in items && IsMovieOrTv(x)
  {
    if items == [] then []
    else (if IsMovieOrTv(items[0]) then [items[0]] else []) + KeepMoviesAndTv(items[1..])
  }

  /** The filter keeps relative order: filtering a concatenation concatenates the filtered parts. */
  lemma {:induction false} KeepMoviesAndTvAppend(a: seq<SearchResult>, b: seq<SearchResult>)
    ensures KeepMoviesAndTv(a + b) == KeepMoviesAndTv(a) + KeepMoviesAndTv(b)
  {
    if a == [] {
      assert a + b == b;
    } else {
      assert (a + b)[0] == a[0];
      assert (a + b)[1..] == a[1..] + b;
      KeepMoviesAndTvAppend(a[1..], b);
    }
  }

  /** The `.map` step: `??` defaults for numbers, `||` defaults for strings and the genre list. */
  function Normalise(item: SearchResult): (r: SearchMovie)
    ensures r.title != ""
    ensures r.title == OrElse(Or(item.title, item.name), "Unknown Title")
    ensures r.id == item.id.GetOr(0) && r.voteCount == item.voteCount.GetOr(0)
    ensures r.voteAverage == item.voteAverage.GetOr(0.0) && r.popularity == item.popularity.GetOr(0.0)
    ensures r.overview == OrElse(item.overview, "") && r.releaseDate == OrElse(item.releaseDate, "")
    ensures r.posterPath == OrElse(item.posterPath, "") && r.backdropPath == OrElse(item.backdropPath, "")
    ensures r.originalLanguage == OrElse(item.originalLanguage, "en")
    ensures r.mediaType == OrElse(item.mediaType, "movie")
    ensures r.genreIds == item.genreIds.GetOr([])
  {
    SearchMovie(
      id := item.id.GetOr(0),
      title := OrElse(Or(item.title, item.name), "Unknown Title"),
      overview := OrElse(item.overview, ""),
      posterPath := OrElse(item.posterPath, ""),
      backdropPath := OrElse(item.backdropPath, ""),
      voteAverage := item.voteAverage.GetOr(0.0),
      releaseDate := OrElse(item.releaseDate, ""),
      originalLanguage := OrElse(item.originalLanguage, "en"),
      mediaType := OrElse(item.mediaType, "movie"),
      genreIds := item.genreIds.GetOr([]),
      popularity := item.popularity.GetOr(0.0),
      voteCount := item.voteCount.GetOr(0)
    )
  }

  /** The results the page stores for a response: the filter, then `Normalise` on each survivor. */
  function SearchResults(items: seq<SearchResult>): (r: seq<SearchMovie>)
    ensures |r| <= |items|
    ensures |r| == |KeepMoviesAndTv(items)|
    ensures forall i :: 0 <= i < |r| ==> r[i] == Normalise(KeepMoviesAndTv(items)[i])
    ensures forall i :: 0 <= i < |r| ==> r[i].mediaType == "movie" || r[i].mediaType == "tv"
    ensures forall i :: 0 <= i < |r| ==> r[i].title != ""
  {
    var kept := KeepMoviesAndTv(items);
    KeptEntries(items);
    seq(|kept|, i requires 0 <= i < |kept| => Normalise(kept[i]))
  }

  /** `y` is the normalisation of some movie or TV entry of the response. */
  ghost predicate FromResponse(items: seq<SearchResult>, y: SearchMovie) {
    exists x :: x in items && IsMovieOrTv(x) && y == Normalise(x)
  }

  /** Every stored result is the normalisation of a movie or TV entry of the response. */
  lemma SearchResultsProvenance(items: seq<SearchResult>)
    ensures forall i :: 0 <= i < |SearchResults(items)| ==> FromResponse(items, SearchResults(items)[i])
  {
    var kept := KeepMoviesAndTv(items);
    KeptEntries(items);
    forall i | 0 <= i < |SearchResults(items)| ensures FromResponse(items, SearchResults(items)[i]) {
      var x := kept[i];
      assert x in items && IsMovieOrTv(x) && SearchResults(items)[i] == Normalise(x);
    }
  }

  /** Every kept entry, by position, is a movie or TV entry of the response. */
  lemma KeptEntries(items: seq<SearchResult>)
    ensures forall i :: 0 <= i < |KeepMoviesAndTv(items)| ==>
      KeepMoviesAndTv(items)[i] in items && IsMovieOrTv(KeepMoviesAndTv(items)[i])
  {
    var kept := KeepMoviesAndTv(items);
    forall i | 0 <= i < |kept| ensures kept[i] in items && IsMovieOrTv(kept[i]) {
      assert kept[i] in kept;
    }
  }

  /** The `"movie"` default for `media_type` never fires: a kept entry keeps its own media type. */
  lemma MediaTypeKept(item: SearchResult)
    requires IsMovieOrTv(item)
    ensures Normalise(item).mediaType == item.mediaType.value
  {
  }

  /** Numbers default only when missing: a present 0 stays 0 and any present value is kept. */
  lemma NumbersDefaultOnlyWhenMissing(item: SearchResult)
    ensures item.id.Some? ==> Normalise(item).id == item.id.value
    ensures item.voteCount.Some? ==> Normalise(item).voteCount == item.voteCount.value
    ensures item.voteAverage.Some? ==> Normalise(item).voteAverage == item.voteAverage.value
    ensures item.popularity.Some? ==> Normalise(item).popularity == item.popularity.value
  {
  }

  /** The page's `searchResults` and `loading` state. */
  class SearchPage {
    var results: seq<SearchMovie>
    var loading: bool

    constructor ()
      ensures results == [] && !loading
    {
      results := [];
      loading := false;
    }

    /** The start of `fetchSearchResults`: an absent or empty query does nothing; otherwise loading begins. */
    method Start(query: Option<string>) returns (started: bool)
      modifies this
      ensures started == Truthy(query)
      ensures results == old(results)
      ensures loading == (started || old(loading))
    {
      if !Truthy(query) {
        return false;
      }
      loading := true;
      return true;
    }

    /**
     * The end of a started fetch: `Some` carries the parsed results, `None`
     * an exception (request, parse or a missing `results` list). Loading
     * ends either way; a failure leaves the results as they were.
     */
    method Finish(response: Option<seq<SearchResult>>)
      modifies this
      ensures !loading
      ensures response.None? ==> results == old(results)
      ensures response.Some? ==> results == SearchResults(response.value)
    {
      if response.Some? {
        results := SearchResults(response.value);
      }
      loading := false;
    }
  }
}

/** The "My List" page: stored list documents mapped to the records the grid shows. */
module MyList {
  import opened JsValues

  /** One stored list document; every field but `id` may be missing. */
  datatype ListDoc = ListDoc(
    id: int,
    title: Option<string>,
    name: Option<string>,
    overview: Option<string>,
    posterPath: Option<string>,
    backdropPath: Option<string>,
    voteAverage: Option<real>,
    releaseDate: Option<string>,
    originalLanguage: Option<string>,
    mediaType: Option<string>
  )

  /** The record the page shows; `title` stays missing when neither title nor name is set. */
  datatype ListMovie = ListMovie(
    id: int,
    title: Option<string>,
    overview: string,
    posterPath: string,
    backdropPath: string,
    voteAverage: real,
    releaseDate: string,
    originalLanguage: string,
    mediaType: string
  )

  /** One document to one record: `title || name`, and `||` defaults for the other fields. */
  function ToMovie(doc: ListDoc): (r: ListMovie)
    ensures r.id == doc.id
    ensures Truthy(doc.title) ==> r.title == doc.title
    ensures !Truthy(doc.title) ==> r.title == doc.name
    ensures r.overview == OrElse(doc.overview, "") && r.releaseDate == OrElse(doc.releaseDate, "")
    ensures r.posterPath == OrElse(doc.posterPath, "") && r.backdropPath == OrElse(doc.backdropPath, "")
    ensures r.voteAverage == (if doc.voteAverage.Some? && doc.voteAverage.value != 0.0 then doc.voteAverage.value else 0.0)
    ensures r.originalLanguage == OrElse(doc.originalLanguage, "en")
    ensures r.mediaType == OrElse(doc.mediaType, "movie") && r.mediaType != ""
  {
    ListMovie(
      id := doc.id,
      title := Or(doc.title, doc.name),
      overview := OrElse(doc.overview, ""),
      posterPath := OrElse(doc.posterPath, ""),
      backdropPath := OrElse(doc.backdropPath, ""),
      voteAverage := if doc.voteAverage.Some? && doc.voteAverage.value != 0.0 then doc.voteAverage.value else 0.0,
      releaseDate := OrElse(doc.releaseDate, ""),
      originalLanguage := OrElse(doc.originalLanguage, "en"),
      mediaType := OrElse(doc.mediaType, "movie")
    )
  }

  /** `myList.map(...)`: one record per document, same order, same ids. */
  function ToMovies(docs: seq<ListDoc>): (r: seq<ListMovie>)
    ensures |r| == |docs|
    ensures forall i :: 0 <= i < |r| ==> r[i].id == docs[i].id && r[i] == ToMovie(docs[i])
  {
    seq(|docs|, i requires 0 <= i < |docs| => ToMovie(docs[i]))
  }

  /** `|| 0` on the vote average agrees with `?? 0`: a present 0 is 0 either way. */
  lemma VoteAverageDefault(doc: ListDoc)
    ensures ToMovie(doc).voteAverage == doc.voteAverage.GetOr(0.0)
  {
  }

  /** Without a title or name the shown title stays missing or empty: no further default applies. */
  lemma TitleHasNoDefault(doc: ListDoc)
    requires !Truthy(doc.title) && !Truthy(doc.name)
    ensures !Truthy(ToMovie(doc).title)
  {
  }

  /** The page's `movies` state. */
  class MyListPage {
    var movies: seq<ListMovie>

    constructor ()
      ensures movies == []
    {
      movies := [];
    }

    /** The effect on a new stored list: only a non-empty list replaces `movies`. */
    method OnListChanged(myList: seq<ListDoc>)
      modifies this
      ensures myList != [] ==> movies == ToMovies(myList)
      ensures myList == [] ==> movies == old(movies)
      ensures ShowsEmptyMessage() <==> myList == [] && old(movies) == []
    {
      if |myList| > 0 {
        movies := ToMovies(myList);
      }
    }

    /** "No movies or shows added yet." is shown exactly when `movies` is empty. */
    predicate ShowsEmptyMessage()
      reads this
      ensures ShowsEmptyMessage() <==> movies == []
    {
      |movies| == 0
    }
  }
}
